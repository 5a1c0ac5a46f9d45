/** Which versions with hyphens are still ordered as section 11 orders them. */
module HyphensProof {
  import opened GoText
  import opened Orders
  import opened Versions
  import opened VersionOrder
  import opened SemVer
  import opened Hyphens

  // ----- Pieces -----

  lemma SpanInText(s: string)
    requires '.' !in s
    ensures Span(s, IDENTIFIER_SEPARATORS) == Span(s, {'-'})
  {
  }

  lemma LegalHasNoDot(x: Identifier)
    requires Legal(x)
    ensures '.' !in PrintIdentifier(x)
  {
    hide PrintNat;
  }

  lemma FieldOfPlain(x: Identifier)
    requires Plain(x)
    ensures Fields(PrintIdentifier(x), IDENTIFIER_SEPARATORS) == [PrintIdentifier(x)]
  {
    hide Plain, PrintIdentifier;
    PlainPrints(x);
    PlainTextHas(PrintIdentifier(x));
    var s := PrintIdentifier(x);
    FieldThen(s, "", IDENTIFIER_SEPARATORS);
    assert s + "" == s;
  }

  lemma {:induction false} PiecesSplit(pre: seq<Identifier>, i: nat)
    requires i <= |pre| && forall j :: 0 <= j < i ==> Plain(pre[j])
    ensures Pieces(pre) == PrintAll(pre[..i]) + Pieces(pre[i..])
    decreases i
  {
    hide Plain, Fields;
    if i == 0 {
      assert pre[0..] == pre;
    } else {
      FieldOfPlain(pre[0]);
      PiecesSplit(pre[1..], i - 1);
      assert pre[1..][..i - 1] == pre[..i][1..] && pre[1..][i - 1..] == pre[i..];
    }
  }

  lemma {:induction false} PiecesArePlain(pre: seq<Identifier>)
    requires forall i :: 0 <= i < |pre| ==> Legal(pre[i])
    ensures forall k :: 0 <= k < |Pieces(pre)| ==> PlainText(Pieces(pre)[k])
  {
    if pre != [] {
      PiecesArePlain(pre[1..]);
      hide Fields, Pieces;
      FieldsArePlain(pre[0]);
      UnfoldPieces(pre);
    }
  }

  lemma UnfoldPieces(pre: seq<Identifier>)
    requires pre != []
    ensures Pieces(pre) == Fields(PrintIdentifier(pre[0]), IDENTIFIER_SEPARATORS) + Pieces(pre[1..])
  {
  }

  lemma FieldsArePlain(x: Identifier)
    requires Legal(x)
    ensures var parts := Fields(PrintIdentifier(x), IDENTIFIER_SEPARATORS);
            forall k :: 0 <= k < |parts| ==> PlainText(parts[k])
  {
    hide Fields;
    var s := PrintIdentifier(x);
    var parts := Fields(s, IDENTIFIER_SEPARATORS);
    LegalChars(x);
    forall k | 0 <= k < |parts| ensures PlainText(parts[k]) {
      assert IsField(parts[k], s, IDENTIFIER_SEPARATORS);
      assert forall j :: 0 <= j < |parts[k]| ==> parts[k][j] in parts[k];
    }
  }

  lemma LegalChars(x: Identifier)
    requires Legal(x)
    ensures forall c :: c in PrintIdentifier(x) ==> IsAlphanumeric(c) || c == '-'
  {
    hide PrintNat;
  }

  // The first piece of an identifier that does not open with a hyphen.
  lemma LeadOf(s: string)
    requires '.' !in s && '-' in s && s[0] != '-'
    ensures var u := s[..Span(s, {'-'})];
            && u != "" && NoneOf(u, {'-'}) && |u| < |s| && s[|u|] == '-'
            && Fields(s, IDENTIFIER_SEPARATORS) == [u] + Fields(s[|u| + 1..], IDENTIFIER_SEPARATORS)
  {
    hide Span;
    SpanInText(s);
    var n := Span(s, {'-'});
    assert 0 < n < |s| by {
      var k :| 0 <= k < |s| && s[k] == '-';
      assert n <= k;
    }
    var u, t := s[..n], s[n + 1..];
    assert s == u + (['-'] + t);
    assert NoneOf(u, IDENTIFIER_SEPARATORS);
    FieldThen(u, ['-'] + t, IDENTIFIER_SEPARATORS);
    assert (['-'] + t)[1..] == t;
  }

  // ----- Comparing behind a common beginning -----

  lemma SameIsEqual(s: string)
    ensures CompareIdentifier(s, s) == 0
  {
    hide Atoi, CompareText;
    TextLawful();
  }

  lemma {:induction false} LexPrefix(p: seq<string>, x: seq<string>, y: seq<string>)
    ensures LexCompare(CompareIdentifier, p + x, p + y) == LexCompare(CompareIdentifier, x, y)
  {
    hide CompareIdentifier;
    if p == [] {
      assert p + x == x && p + y == y;
    } else {
      SameIsEqual(p[0]);
      LexPrefix(p[1..], x, y);
      assert (p + x)[1..] == p[1..] + x && (p + y)[1..] == p[1..] + y;
    }
  }

  lemma NotBelowItself(x: Identifier)
    ensures !IdentifierBelow(x, x)
  {
    if x.Alphanumeric? {
      TextBelowIff(x.s, x.s);
    }
  }

  lemma {:induction false} BelowPrefix(p: seq<Identifier>, x: seq<Identifier>, y: seq<Identifier>)
    ensures ListBelow(p + x, p + y) <==> ListBelow(x, y)
  {
    hide IdentifierBelow, BelowAtFirstDifference;
    if p == [] {
      assert p + x == x && p + y == y;
    } else {
      NotBelowItself(p[0]);
      BelowPrefix(p[1..], x, y);
      assert (p + x)[1..] == p[1..] + x && (p + y)[1..] == p[1..] + y;
      DecidedShift((a, b) => IdentifierBelow(a, b), p + x, p + y);
    }
  }

  lemma PrintAllAppend(p: seq<Identifier>, q: seq<Identifier>)
    ensures PrintAll(p + q) == PrintAll(p) + PrintAll(q)
  {
    hide PrintAll, PrintIdentifier;
    var a, b := PrintAll(p + q), PrintAll(p) + PrintAll(q);
    assert |a| == |b|;
    forall i | 0 <= i < |a| ensures a[i] == b[i] {
    }
  }

  // ----- Against a straight version with the same numbers, and with others -----

  lemma NewerByPieces(a: Version, b: Version, markedA: bool, markedB: bool)
    requires LegalVersion(a) && Straight(b) && GitDescribe(Pieces(a.pre)).None?
    requires a.(pre := []) == b.(pre := [])
    ensures var c := ComparePrerelease(Pieces(a.pre), PrintAll(b.pre));
            && (IsVersionNewer(Print(a, markedA), Print(b, markedB)) <==> c < 0)
            && (IsVersionNewer(Print(b, markedB), Print(a, markedA)) <==> c > 0)
  {
    hide Parse, Print, PrintAll, Pieces, GitDescribe, ComparePadded, ComparePrerelease;
    ParseHyphenated(a, markedA);
    ParsePrinted(b, markedB);
    CompareThreeNumbers(a, b);
    CompareThreeNumbers(b, a);
    PrereleaseLawful();
    assert ComparePrerelease(Pieces(a.pre), PrintAll(b.pre)) == -ComparePrerelease(PrintAll(b.pre), Pieces(a.pre));
  }

  lemma OtherNumbers(a: Version, b: Version, markedA: bool, markedB: bool)
    requires LegalVersion(a) && Straight(b) && a.(pre := []) != b.(pre := [])
    ensures OrderedAgainst(a, b, markedA, markedB)
  {
    hide Parse, Print, PrintAll, Pieces, GitDescribe, ComparePadded, ComparePrerelease, LexCompare, PrePrecedes;
    ParseHyphenated(a, markedA);
    ParsePrinted(b, markedB);
    CompareThreeNumbers(a, b);
    CompareThreeNumbers(b, a);
  }

  // ----- Misread: some straight version shows it -----

  // Behind a plain beginning the pieces compare one way, the identifiers another.
  lemma Misordered(a: Version, p: seq<Identifier>, t: seq<Identifier>, r: seq<string>, q: seq<Identifier>)
    requires LegalVersion(a) && a.pre == p + t && Pieces(a.pre) == PrintAll(p) + r && Pieces(a.pre) != []
    requires GitDescribe(Pieces(a.pre)).None? && !DescribeShaped(p + q) && p + q != []
    requires forall i :: 0 <= i < |p + q| ==> Plain((p + q)[i])
    requires var c := LexCompare(CompareIdentifier, r, PrintAll(q));
             (c <= 0 && ListBelow(q, t)) || (c >= 0 && ListBelow(t, q))
    ensures !OrderedRight(a)
  {
    hide Plain, Legal, DescribeShaped, GitDescribe, Pieces, PrintAll, LexCompare, IsVersionNewer, Print;
    var b := a.(pre := p + q);
    NewerByPieces(a, b, false, false);
    PrintAllAppend(p, q);
    LexPrefix(PrintAll(p), r, PrintAll(q));
    BelowPrefix(p, q, t);
    BelowPrefix(p, t, q);
    PiecesNeedIdentifiers(a.pre);
    assert |PrintAll(p + q)| == |p + q|;
    hide ListBelow;
    BelowBothNonEmpty(a, b);
    assert !OrderedAgainst(a, b, false, false);
  }

  lemma PiecesNeedIdentifiers(pre: seq<Identifier>)
    ensures Pieces(pre) != [] ==> pre != []
  {
  }

  lemma BelowBothNonEmpty(a: Version, b: Version)
    requires a.(pre := []) == b.(pre := []) && a.pre != [] && b.pre != []
    ensures Precedes(a, b) <==> ListBelow(a.pre, b.pre)
    ensures Precedes(b, a) <==> ListBelow(b.pre, a.pre)
  {
    hide BelowAtFirstDifference, IdentifierBelow;
  }

  // Read as a git-describe suffix, or as nothing, a pre-release is not below its release.
  lemma MisorderedRelease(a: Version)
    requires LegalVersion(a) && a.pre != []
    requires GitDescribe(Pieces(a.pre)).Some? || Pieces(a.pre) == []
    ensures !OrderedRight(a)
  {
    hide Parse, Print, PrintAll, Pieces, ComparePadded, LexCompare, Legal, TrimSpace, Atoi;
    var release := a.(pre := []);
    ParseHyphenated(a, false);
    ParsePrinted(release, false);
    CompareThreeNumbers(a, release);
    NothingPrinted();
    assert Precedes(a, release);
    assert !OrderedAgainst(a, release, false, false);
  }

  lemma NothingPrinted()
    ensures PrintAll([]) == []
  {
  }

  // ----- Witnesses -----

  // A text above every text of this length or less.
  function Highest(n: nat): (z: string)
    ensures |z| == n + 1 && forall i :: 0 <= i <= n ==> z[i] == 'z'
  {
    seq(n + 1, _ => 'z')
  }

  // A text below every text of this length but zeros.
  function Lowest(n: nat): (z: string)
    ensures |z| == n + 1 && z[n] == 'A' && forall i :: 0 <= i < n ==> z[i] == '0'
  {
    seq(n, _ => '0') + "A"
  }

  lemma WitnessesPlain(n: nat)
    ensures Plain(Alphanumeric(Highest(n))) && Plain(Alphanumeric(Lowest(n)))
    ensures Atoi(Highest(n)).None? && Atoi(Lowest(n)).None?
  {
    assert !IsDigit(Highest(n)[0]) && !IsDigit(Lowest(n)[n]);
    PlainPrints(Alphanumeric(Highest(n)));
    PlainPrints(Alphanumeric(Lowest(n)));
  }

  lemma {:induction false} BelowHighest(s: string, n: nat)
    requires |s| <= n && forall i :: 0 <= i < |s| ==> IsAlphanumeric(s[i])
    ensures CompareText(s, Highest(n)) < 0
    decreases |s|
  {
    if s != [] {
      assert Highest(n)[1..] == Highest(n - 1);
      BelowHighest(s[1..], n - 1);
    }
  }

  lemma {:induction false} AboveLowest(s: string, n: nat)
    requires |s| <= n && (forall i :: 0 <= i < |s| ==> IsAlphanumeric(s[i])) && exists i :: 0 <= i < |s| && s[i] != '0'
    ensures CompareText(s, Lowest(n)) > 0
    decreases |s|
  {
    if s[0] == '0' {
      assert Lowest(n)[1..] == Lowest(n - 1);
      var i :| 0 <= i < |s| && s[i] != '0';
      assert s[1..][i - 1] == s[i];
      AboveLowest(s[1..], n - 1);
    }
  }

  lemma {:induction false} ZerosAreZero(s: string)
    requires forall i :: 0 <= i < |s| ==> s[i] == '0'
    ensures AllDigits(s) && DigitsValue(s) == 0
  {
    if s != [] {
      ZerosAreZero(s[..|s| - 1]);
    }
  }

  // What a piece is to the comparison.
  lemma PieceNumber(s: string)
    requires PlainText(s)
    ensures Atoi(s).Some? <==> AllDigits(s) && DigitsValue(s) <= INT_MAX
    ensures Atoi(s).Some? ==> 0 <= Atoi(s).value <= INT_MAX && Atoi(s).value == DigitsValue(s)
    ensures Atoi(s).None? ==> exists i :: 0 <= i < |s| && s[i] != '0'
  {
    assert IsAlphanumeric(s[0]);
    if Atoi(s).None? && forall i :: 0 <= i < |s| ==> s[i] == '0' {
      ZerosAreZero(s);
    }
  }

  // The identifier that compares equal to a piece.
  function Twin(s: string): Identifier {
    match Atoi(s) case Some(n) => (if n >= 0 then Numeric(n) else Alphanumeric(s)) case None => Alphanumeric(s)
  }

  lemma TwinEqual(s: string)
    requires PlainText(s) && !(AllDigits(s) && DigitsValue(s) > INT_MAX)
    ensures Plain(Twin(s)) && CompareIdentifier(s, PrintIdentifier(Twin(s))) == 0
  {
    hide PlainText, AllDigits, DigitsValue, CompareText;
    PieceNumber(s);
    TwinPlain(s);
    PlainPrints(Twin(s));
    TextLawful();
  }

  lemma TwinPlain(s: string)
    requires PlainText(s) && !(AllDigits(s) && DigitsValue(s) > INT_MAX)
    ensures Plain(Twin(s))
  {
    hide Atoi;
    PieceNumber(s);
  }

  // The pieces behind the first stay below one high text.
  lemma RestBelow(r: seq<string>)
    requires forall k :: 0 <= k < |r| ==> PlainText(r[k])
    ensures var z := Highest(if r == [] then 0 else |r[0]|);
            LexCompare(CompareIdentifier, r, [z]) < 0
  {
    if r != [] {
      hide Atoi, CompareText, LexCompare;
      WitnessesPlain(|r[0]|);
      BelowHighest(r[0], |r[0]|);
      LexOfOne(r, Highest(|r[0]|));
    }
  }

  lemma LexOfOne(r: seq<string>, z: string)
    requires r != [] && CompareIdentifier(r[0], z) != 0
    ensures LexCompare(CompareIdentifier, r, [z]) == CompareIdentifier(r[0], z)
  {
    hide CompareIdentifier;
  }

  lemma LexOfTwo(r: seq<string>, x: string, z: string)
    requires r != [] && CompareIdentifier(r[0], x) == 0
    ensures LexCompare(CompareIdentifier, r, [x, z]) == LexCompare(CompareIdentifier, r[1..], [z])
  {
    hide CompareIdentifier;
    assert [x, z][1..] == [z];
  }

  // ----- Where describe could have named the witness -----

  lemma DescribeFirstTwo(x: seq<string>, y: seq<string>)
    requires |x| >= 2 && |y| >= 2 && x[0] == y[0] && x[1] == y[1]
    ensures GitDescribe(x).Some? <==> GitDescribe(y).Some?
  {
    hide Atoi, TrimSpace;
  }

  lemma NotShaped(p: seq<Identifier>, r: seq<string>, q: seq<Identifier>)
    requires (forall i :: 0 <= i < |p| ==> Plain(p[i])) && (forall i :: 0 <= i < |q| ==> Plain(q[i]))
    requires GitDescribe(PrintAll(p) + r).None?
    requires p == [] ==> !DescribeShaped(q)
    requires |p| == 1 && q != [] && q[0].Alphanumeric? ==> (r != [] && r[0] == q[0].s) || (q[0].s != "" && q[0].s[0] == '0')
    ensures !DescribeShaped(p + q)
  {
    hide GitDescribe, Plain;
    if |p| >= 1 && DescribeShaped(p + q) {
      var all := PrintAll(p + q);
      assert forall i :: 0 <= i < |p + q| ==> Plain((p + q)[i]);
      DescribeRecognised(p + q);
      PrintAllAppend(p, q);
      DescribeFirstTwo(all, PrintAll(p) + r);
    }
  }

  // ----- The misread ones -----

  // Everything the witness needs, for a version whose first hyphenated identifier is i.
  ghost predicate SplitsAt(a: Version, i: nat, r: seq<string>) {
    && LegalVersion(a) && i < |a.pre| && Hyphenated(a.pre[i])
    && (forall j :: 0 <= j < i ==> Plain(a.pre[j]))
    && Pieces(a.pre) == PrintAll(a.pre[..i]) + r
    && (forall k :: 0 <= k < |r| ==> PlainText(r[k]))
    && GitDescribe(Pieces(a.pre)).None? && Pieces(a.pre) != []
  }

  // A first piece that has a twin: the twin with a high text behind it.
  lemma TwinShows(a: Version, i: nat, r: seq<string>)
    requires SplitsAt(a, i, r) && r != [] && !(AllDigits(r[0]) && DigitsValue(r[0]) > INT_MAX)
    requires IdentifierBelow(Twin(r[0]), a.pre[i]) && Twin(r[0]) != a.pre[i]
    ensures !OrderedRight(a)
  {
    hide GitDescribe, Pieces, LexCompare, CompareIdentifier, AllDigits, DigitsValue;
    hide Plain, Twin, Legal, IdentifierBelow, PlainText;
    var p, t := a.pre[..i], a.pre[i..];
    var z := Alphanumeric(Highest(if r[1..] == [] then 0 else |r[1..][0]|));
    var q := [Twin(r[0]), z];
    TwinEqual(r[0]);
    WitnessesPlain(|z.s| - 1);
    RestBelow(r[1..]);
    LexOfTwo(r, PrintIdentifier(q[0]), z.s);
    assert PrintAll(q) == [PrintIdentifier(q[0]), z.s];
    TwinText(r[0]);
    NotShaped(p, r, q);
    assert a.pre == p + t;
    FirstDecides(q, t);
    Misordered(a, p, t, r, q);
  }

  lemma TwinText(s: string)
    ensures Twin(s).Alphanumeric? ==> Twin(s).s == s
  {
  }

  lemma FirstDecides(x: seq<Identifier>, y: seq<Identifier>)
    requires x != [] && y != [] && x[0] != y[0] && IdentifierBelow(x[0], y[0])
    ensures ListBelow(x, y)
  {
    hide IdentifierBelow;
    DecidedAtOnce((a, b) => IdentifierBelow(a, b), x, y);
  }

  // A first piece that is text, behind a leading hyphen: a low text.
  lemma LowestShows(a: Version, i: nat, r: seq<string>)
    requires SplitsAt(a, i, r) && r != [] && Atoi(r[0]).None? && a.pre[i].s[0] == '-'
    ensures !OrderedRight(a)
  {
    hide GitDescribe, Pieces, LexCompare, AllDigits, DigitsValue, Plain, Legal, CompareText, Atoi;
    var p, t := a.pre[..i], a.pre[i..];
    var q := [Alphanumeric(Lowest(|r[0]|))];
    WitnessesPlain(|r[0]|);
    PieceNumber(r[0]);
    AboveLowest(r[0], |r[0]|);
    assert CompareIdentifier(r[0], q[0].s) > 0;
    LexOfOne(r, q[0].s);
    assert PrintAll(q) == [q[0].s];
    NotShaped(p, r, q);
    assert a.pre == p + t;
    HyphenBelow(a.pre[i].s, q[0].s);
    FirstDecides(t, q);
    Misordered(a, p, t, r, q);
  }

  lemma HyphenBelow(s: string, x: string)
    requires s != "" && s[0] == '-' && x != "" && IsAlphanumeric(x[0])
    ensures IdentifierBelow(Alphanumeric(s), Alphanumeric(x))
  {
    assert DecidedAt(CharBelow, s, x, 0);
  }

  // No piece at all behind a plain beginning.
  lemma NothingShows(a: Version, i: nat, r: seq<string>)
    requires SplitsAt(a, i, r) && r == []
    ensures !OrderedRight(a)
  {
    hide GitDescribe, Pieces, Plain, Legal, IdentifierBelow;
    var p, t := a.pre[..i], a.pre[i..];
    assert p + [] == p && PrintAll(p) + [] == PrintAll(p) && a.pre == p + t;
    assert |PrintAll(p)| == |p|;
    NotShaped(p, r, []);
    assert DecidedAt((x, y) => IdentifierBelow(x, y), [], t, 0);
    Misordered(a, p, t, r, []);
  }

  // The twin of the text before a hyphen is below the whole.
  lemma LeadBelow(s: string, u: string)
    requires |u| < |s| && s[..|u|] == u && s[|u|] == '-' && PlainText(u)
    ensures IdentifierBelow(Twin(u), Alphanumeric(s)) && Twin(u) != Alphanumeric(s)
  {
    hide Atoi;
    assert DecidedAt(CharBelow, u, s, |u|);
  }

  lemma SplitUp(a: Version, i: nat)
    requires LegalVersion(a) && i == FirstHyphenated(a.pre) && i < |a.pre|
    requires GitDescribe(Pieces(a.pre)).None? && Pieces(a.pre) != []
    ensures SplitsAt(a, i, Pieces(a.pre[i..]))
  {
    hide GitDescribe, Plain, Legal, Pieces, PlainText;
    forall j | 0 <= j < i ensures Plain(a.pre[j]) {
      PlainIffNoHyphen(a.pre[j]);
    }
    PiecesSplit(a.pre, i);
    PiecesArePlain(a.pre);
    var r := Pieces(a.pre[i..]);
    assert forall k :: 0 <= k < |r| ==> r[k] == Pieces(a.pre)[i + k];
  }

  // The first piece of an identifier with a lead is that lead.
  lemma LeadIsFirst(pre: seq<Identifier>)
    requires pre != [] && Legal(pre[0]) && Hyphenated(pre[0]) && pre[0].s[0] != '-'
    ensures var s := pre[0].s; var u := s[..Span(s, {'-'})];
            && Pieces(pre) != [] && Pieces(pre)[0] == u && PlainText(u)
            && |u| < |s| && s[..|u|] == u && s[|u|] == '-'
  {
    hide Fields, Legal, PlainText;
    var s := pre[0].s;
    LegalHasNoDot(pre[0]);
    LeadOf(s);
    UnfoldPieces(pre);
    FieldsArePlain(pre[0]);
    assert Fields(s, IDENTIFIER_SEPARATORS)[0] == s[..Span(s, {'-'})];
  }

  lemma MisreadAt(a: Version, i: nat)
    requires LegalVersion(a) && i == FirstHyphenated(a.pre) && i < |a.pre| && !Overlong(a.pre[i].s)
    ensures !OrderedRight(a)
  {
    hide GitDescribe, Plain, Legal, Pieces, PlainText, AllDigits, DigitsValue, Atoi, IdentifierBelow, Twin, OrderedRight,
         SplitsAt;
    if GitDescribe(Pieces(a.pre)).Some? || Pieces(a.pre) == [] {
      MisorderedRelease(a);
    } else {
      var s, r := a.pre[i].s, Pieces(a.pre[i..]);
      SplitUp(a, i);
      PiecesOfTail(a, i);
      if s[0] != '-' {
        LeadIsFirst(a.pre[i..]);
        LeadBelow(s, r[0]);
        TwinShows(a, i, r);
      } else if r == [] {
        NothingShows(a, i, r);
      } else if Atoi(r[0]).Some? {
        NumberTwin(r[0], a.pre[i]);
        TwinShows(a, i, r);
      } else {
        LowestShows(a, i, r);
      }
    }
  }

  lemma PiecesOfTail(a: Version, i: nat)
    requires i < |a.pre| && SplitsAt(a, i, Pieces(a.pre[i..]))
    ensures a.pre[i].s != "" && Pieces(a.pre[i..]) != [] ==> PlainText(Pieces(a.pre[i..])[0])
    ensures a.pre[i].s != ""
  {
    hide Pieces, GitDescribe;
  }

  lemma NumberTwin(s: string, x: Identifier)
    requires PlainText(s) && Atoi(s).Some? && x.Alphanumeric?
    ensures !(AllDigits(s) && DigitsValue(s) > INT_MAX)
    ensures IdentifierBelow(Twin(s), x) && Twin(s) != x
  {
    hide Atoi;
    PieceNumber(s);
  }

  // Shaped as git describe writes, hyphens or not, means read so.
  lemma ShapedIsRead(a: Version)
    requires LegalVersion(a) && DescribeShaped(a.pre)
    ensures GitDescribe(Pieces(a.pre)).Some?
  {
    hide Fields, Atoi, TrimSpace;
    var x, s := a.pre[0], a.pre[1].s;
    FieldOfPlain(x);
    PlainPrints(x);
    PlainTextHas(PrintIdentifier(x));
    UnfoldPieces(a.pre);
    UnfoldPieces(a.pre[1..]);
    LegalHasNoDot(a.pre[1]);
    var more := Fields(s, IDENTIFIER_SEPARATORS);
    if '-' in s {
      LeadOf(s);
    } else {
      PlainIffNoHyphen(a.pre[1]);
      FieldOfPlain(a.pre[1]);
    }
    FieldsArePlain(a.pre[1]);
    PlainTextHas(more[0]);
    assert Pieces(a.pre)[0] == PrintIdentifier(x) && Pieces(a.pre)[1] == more[0];
    assert more[0][0] == s[0];
  }

  // ----- The well read ones -----

  lemma {:induction false} OverlongText(u: string, rest: string, t: string)
    requires AllDigits(u) && (forall i :: 0 <= i < |t| ==> IsAlphanumeric(t[i])) && !AllDigits(t)
    ensures CompareText(u, t) == CompareText(u + (['-'] + rest), t) != 0
    decreases |u|
  {
    if u == "" {
      assert u + (['-'] + rest) == ['-'] + rest;
    } else if u[0] == t[0] {
      assert (u + (['-'] + rest))[1..] == u[1..] + (['-'] + rest);
      assert !AllDigits(t[1..]) by {
        var k :| 0 <= k < |t| && !IsDigit(t[k]);
        assert t[1..][k - 1] == t[k];
      }
      OverlongText(u[1..], rest, t[1..]);
    }
  }

  // The overlong piece stands to every plain identifier as the whole identifier does.
  lemma OverlongStands(s: string, u: string, y: Identifier)
    requires |u| < |s| && s[..|u|] == u && s[|u|] == '-' && PlainText(u) && AllDigits(u) && Atoi(u).None? && Plain(y)
    ensures var c := CompareIdentifier(u, PrintIdentifier(y));
            && c != 0
            && (c < 0 <==> IdentifierBelow(Alphanumeric(s), y))
            && (c > 0 <==> IdentifierBelow(y, Alphanumeric(s)))
  {
    hide Atoi, PrintNat, AllDigits, CompareText;
    PlainPrints(y);
    if y.Alphanumeric? {
      assert s == u + (['-'] + s[|u| + 1..]);
      PlainWord(y);
      OverlongText(u, s[|u| + 1..], y.s);
      TextBelowIff(s, y.s);
      TextBelowIff(y.s, s);
      TextLawful();
    }
  }

  lemma PlainWord(y: Identifier)
    requires Plain(y) && y.Alphanumeric?
    ensures !AllDigits(y.s) && forall i :: 0 <= i < |y.s| ==> IsAlphanumeric(y.s[i])
  {
  }

  // Two lists whose first elements differ, one of them read by a piece.
  lemma HeadDecides(r: seq<string>, p: seq<Identifier>, q: seq<Identifier>)
    requires r != [] && p != [] && q != [] && p[0] != q[0]
    requires var c := CompareIdentifier(r[0], PrintIdentifier(q[0]));
             c != 0 && (c < 0 <==> IdentifierBelow(p[0], q[0])) && (c > 0 <==> IdentifierBelow(q[0], p[0]))
    ensures LexCompare(CompareIdentifier, r, PrintAll(q)) < 0 <==> ListBelow(p, q)
    ensures LexCompare(CompareIdentifier, r, PrintAll(q)) > 0 <==> ListBelow(q, p)
  {
    hide CompareIdentifier, IdentifierBelow;
    DecidedAtOnce((a, b) => IdentifierBelow(a, b), p, q);
    DecidedAtOnce((a, b) => IdentifierBelow(a, b), q, p);
  }

  lemma AgainstNothing(r: seq<string>, p: seq<Identifier>)
    requires r != [] && p != []
    ensures LexCompare(CompareIdentifier, r, PrintAll([])) > 0
    ensures !ListBelow(p, []) && ListBelow([], p)
  {
    assert DecidedAt((x, y) => IdentifierBelow(x, y), [], p, 0);
  }

  lemma {:induction false} OverlongLex(p: seq<Identifier>, q: seq<Identifier>)
    requires (forall i :: 0 <= i < |p| ==> Legal(p[i])) && (forall i :: 0 <= i < |q| ==> Plain(q[i]))
    requires FirstHyphenated(p) < |p| && Overlong(p[FirstHyphenated(p)].s)
    ensures Pieces(p) != []
    ensures LexCompare(CompareIdentifier, Pieces(p), PrintAll(q)) < 0 <==> ListBelow(p, q)
    ensures LexCompare(CompareIdentifier, Pieces(p), PrintAll(q)) > 0 <==> ListBelow(q, p)
  {
    hide Legal, Plain, Fields, IdentifierBelow, CompareIdentifier, LexCompare, ListBelow, PrintAll, Overlong, Pieces;
    HeadPiece(p);
    if q == [] {
      AgainstNothing(Pieces(p), p);
    } else if Hyphenated(p[0]) {
      OverlongHead(p, q);
    } else {
      PlainIffNoHyphen(p[0]);
      FieldOfPlain(p[0]);
      UnfoldPieces(p);
      IdentifierBelowIff(p[0], q[0]);
      IdentifierBelowIff(q[0], p[0]);
      IdentifierLawful();
      if p[0] != q[0] {
        Opposite(PrintIdentifier(p[0]), PrintIdentifier(q[0]));
        HeadDecides(Pieces(p), p, q);
      } else {
        OverlongLex(p[1..], q[1..]);
        SameHead(p[0], Pieces(p[1..]), p[1..], q[1..]);
        assert p == [p[0]] + p[1..] && q == [p[0]] + q[1..];
        assert Pieces(p) == [PrintIdentifier(p[0])] + Pieces(p[1..]);
      }
    }
  }

  lemma Opposite(x: string, y: string)
    ensures CompareIdentifier(x, y) == -CompareIdentifier(y, x)
  {
    hide CompareIdentifier;
    IdentifierLawful();
  }

  lemma SameHead(x: Identifier, r: seq<string>, p: seq<Identifier>, q: seq<Identifier>)
    ensures LexCompare(CompareIdentifier, [PrintIdentifier(x)] + r, PrintAll([x] + q))
         == LexCompare(CompareIdentifier, r, PrintAll(q))
    ensures ListBelow([x] + p, [x] + q) <==> ListBelow(p, q)
    ensures ListBelow([x] + q, [x] + p) <==> ListBelow(q, p)
  {
    hide CompareIdentifier, LexCompare, ListBelow;
    PrintAllAppend([x], q);
    assert PrintAll([x]) == [PrintIdentifier(x)];
    LexPrefix([PrintIdentifier(x)], r, PrintAll(q));
    BelowPrefix([x], p, q);
    BelowPrefix([x], q, p);
  }

  // There is a first piece.
  lemma HeadPiece(p: seq<Identifier>)
    requires p != [] && Legal(p[0])
    requires Hyphenated(p[0]) ==> Overlong(p[0].s)
    ensures Pieces(p) != []
  {
    hide Fields;
    if Hyphenated(p[0]) {
      LegalHasNoDot(p[0]);
      OverlongOpens(p[0].s);
      LeadOf(p[0].s);
    } else {
      PlainIffNoHyphen(p[0]);
      FieldOfPlain(p[0]);
    }
  }

  lemma OverlongOpens(s: string)
    requires Overlong(s)
    ensures s != "" && IsDigit(s[0]) && s[0] != '-'
  {
  }

  lemma OverlongHead(p: seq<Identifier>, q: seq<Identifier>)
    requires p != [] && q != [] && Legal(p[0]) && Hyphenated(p[0]) && Overlong(p[0].s) && Plain(q[0])
    ensures LexCompare(CompareIdentifier, Pieces(p), PrintAll(q)) < 0 <==> ListBelow(p, q)
    ensures LexCompare(CompareIdentifier, Pieces(p), PrintAll(q)) > 0 <==> ListBelow(q, p)
  {
    hide Fields, CompareIdentifier, IdentifierBelow, LexCompare, ListBelow, Atoi, Plain, PlainText, AllDigits, DigitsValue,
         PrintAll, Pieces;
    var s := p[0].s;
    OverlongOpens(s);
    LeadIsFirst(p);
    var u := s[..Span(s, {'-'})];
    OverlongPiece(u);
    OverlongStands(s, u, q[0]);
    PlainIffNoHyphen(p[0]);
    assert p[0] != q[0];
    HeadDecides(Pieces(p), p, q);
  }

  lemma WellReadNoDescribe(pre: seq<Identifier>)
    requires (forall i :: 0 <= i < |pre| ==> Legal(pre[i])) && WellRead(pre)
    ensures GitDescribe(Pieces(pre)).None?
  {
    hide Fields, Atoi, TrimSpace, PrintNat, Legal, Plain, Pieces, PlainText, GitDescribe, AllDigits, DigitsValue, DescribeShaped;
    var i := FirstHyphenated(pre);
    forall j | 0 <= j < i ensures Plain(pre[j]) {
      PlainIffNoHyphen(pre[j]);
    }
    PiecesSplit(pre, i);
    var p, r := pre[..i], Pieces(pre[i..]);
    assert forall j :: 0 <= j < |p| ==> Plain(p[j]);
    DescribeRecognised(p);
    ShapedPrefix(pre, i);
    if i == |pre| {
      NoPieces();
      assert pre[i..] == [] && PrintAll(p) + [] == PrintAll(p);
    } else if i >= 2 {
      DescribeFirstTwo(Pieces(pre), PrintAll(p));
    } else {
      OverlongOpens(pre[i].s);
      LeadIsFirst(pre[i..]);
      assert Pieces(pre)[i] == r[0];
      OverlongPiece(r[0]);
      PieceBlocks(Pieces(pre), i);
    }
  }

  lemma NoPieces()
    ensures Pieces([]) == []
  {
  }

  lemma OverlongPiece(u: string)
    requires PlainText(u) && AllDigits(u) && DigitsValue(u) > INT_MAX
    ensures Atoi(u).None? && TrimSpace(u) == u && IsDigit(u[0])
  {
    hide TrimSpace, Atoi;
    PieceNumber(u);
    PlainTextHas(u);
  }

  // As count it is no number, as token it does not open with g.
  lemma PieceBlocks(pieces: seq<string>, i: nat)
    requires i < |pieces| && i < 2 && pieces[i] != ""
    requires Atoi(pieces[i]).None? && TrimSpace(pieces[i]) == pieces[i] && IsDigit(pieces[i][0])
    ensures GitDescribe(pieces).None?
  {
    hide Atoi, TrimSpace;
  }

  lemma ShapedPrefix(pre: seq<Identifier>, i: nat)
    requires i <= |pre|
    ensures DescribeShaped(pre[..i]) ==> DescribeShaped(pre)
  {
  }

  lemma WellReadSameNumbers(a: Version, b: Version, markedA: bool, markedB: bool)
    requires LegalVersion(a) && WellRead(a.pre) && Straight(b) && a.(pre := []) == b.(pre := [])
    ensures OrderedAgainst(a, b, markedA, markedB)
  {
    hide Legal, Plain, Print, IsVersionNewer, Pieces, GitDescribe, PrintAll, LexCompare, Overlong, DescribeShaped;
    if FirstHyphenated(a.pre) == |a.pre| {
      forall i | 0 <= i < |a.pre| ensures Plain(a.pre[i]) {
        PlainIffNoHyphen(a.pre[i]);
      }
      SemVerAgreement(a, b, markedA, markedB);
      SemVerAgreement(b, a, markedB, markedA);
    } else {
      WellReadNoDescribe(a.pre);
      NewerByPieces(a, b, markedA, markedB);
      OverlongLex(a.pre, b.pre);
      if b.pre == [] {
        NothingPrinted();
        hide ListBelow;
        assert Precedes(a, b) && !Precedes(b, a);
      } else {
        BelowBothNonEmpty(a, b);
        hide ListBelow;
        assert |PrintAll(b.pre)| == |b.pre|;
      }
    }
  }

  // ----- Main result -----

  /** Against all straight versions a legal one is ordered as section 11 orders it exactly
      when it is not shaped as git describe writes and no identifier holds a hyphen - or
      the first that does opens with a number beyond the range of int. */
  lemma OrderedRightIff(a: Version)
    requires LegalVersion(a)
    ensures OrderedRight(a) <==> WellRead(a.pre)
  {
    hide Legal, Plain, WellRead, OrderedAgainst, Straight, DescribeShaped, Pieces, GitDescribe;
    if WellRead(a.pre) {
      forall b, markedA, markedB | Straight(b) ensures OrderedAgainst(a, b, markedA, markedB) {
        if a.(pre := []) == b.(pre := []) {
          WellReadSameNumbers(a, b, markedA, markedB);
        } else {
          OtherNumbers(a, b, markedA, markedB);
        }
      }
    } else {
      NotWellRead(a);
    }
  }

  lemma NotWellRead(a: Version)
    requires LegalVersion(a) && !WellRead(a.pre)
    ensures !OrderedRight(a)
  {
    hide OrderedRight, LegalVersion, Pieces, GitDescribe, Overlong;
    if DescribeShaped(a.pre) {
      ShapedIsRead(a);
      MisorderedRelease(a);
    } else {
      MisreadAt(a, FirstHyphenated(a.pre));
    }
  }

  // Without overlong numbers: no hyphen, and not shaped as git describe writes.
  lemma OrderedRightWithinInt(a: Version)
    requires LegalVersion(a)
    requires forall i :: 0 <= i < |a.pre| && Hyphenated(a.pre[i]) ==> !Overlong(a.pre[i].s)
    ensures OrderedRight(a) <==>
              !DescribeShaped(a.pre) && forall i :: 0 <= i < |a.pre| ==> !Hyphenated(a.pre[i])
  {
    hide OrderedRight, Overlong, DescribeShaped, Legal;
    OrderedRightIff(a);
  }

  // 1.0.0-a.b and 1.0.0-a-b, which section 11 orders, are read alike.
  lemma HyphenatedIdentifiersDiffer()
    ensures PrePrecedes([Alphanumeric("a"), Alphanumeric("b")], [Alphanumeric("a-b")])
    ensures Print(Version(1, 0, 0, [Alphanumeric("a-b")]), false) == "1.0.0-a-b"
    ensures Parse("1.0.0-a.b") == Parse("1.0.0-a-b")
  {
    var v := Version(1, 0, 0, [Alphanumeric("a"), Alphanumeric("b")]);
    var w := Version(1, 0, 0, [Alphanumeric("a-b")]);
    hide Parse, Pieces, GitDescribe, Print;
    DottedBelowHyphened(v.pre, w.pre);
    SmallWords();
    ParseHyphenated(v, false);
    ParseHyphenated(w, false);
    AlikeText(v, w);
    AlikePieces();
  }

  lemma DottedBelowHyphened(p: seq<Identifier>, q: seq<Identifier>)
    requires p == [Alphanumeric("a"), Alphanumeric("b")] && q == [Alphanumeric("a-b")]
    ensures PrePrecedes(p, q)
  {
    assert DecidedAt(CharBelow, "a", "a-b", 1);
    assert IdentifierBelow(p[0], q[0]);
    FirstDecides(p, q);
  }

  lemma SmallWords()
    ensures Plain(Alphanumeric("a")) && Plain(Alphanumeric("b"))
    ensures Legal(Alphanumeric("a")) && Legal(Alphanumeric("b")) && Legal(Alphanumeric("a-b"))
  {
    assert !IsDigit("a"[0]) && !IsDigit("b"[0]) && !IsDigit("a-b"[0]);
  }

  lemma AlikeText(v: Version, w: Version)
    requires v == Version(1, 0, 0, [Alphanumeric("a"), Alphanumeric("b")])
    requires w == Version(1, 0, 0, [Alphanumeric("a-b")])
    ensures Print(v, false) == "1.0.0-a.b" && Print(w, false) == "1.0.0-a-b"
  {
    assert PrintNat(1) == "1" && PrintNat(0) == "0";
    assert PrintAll(v.pre) == ["a", "b"] && PrintAll(w.pre) == ["a-b"];
    assert Join(["a", "b"][1..], ".") == "b";
  }

  lemma AlikePieces()
    ensures Pieces([Alphanumeric("a"), Alphanumeric("b")]) == Pieces([Alphanumeric("a-b")])
  {
    hide Fields;
    SmallWords();
    FieldOfPlain(Alphanumeric("a"));
    FieldOfPlain(Alphanumeric("b"));
    assert [Alphanumeric("a"), Alphanumeric("b")][1..] == [Alphanumeric("b")];
    assert "a-b" == "a" + (['-'] + "b");
    FieldsAt("a", '-', "b", IDENTIFIER_SEPARATORS);
  }
}
