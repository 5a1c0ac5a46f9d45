/**
 The updater's order on everything it can be given in print: any number of dotted numbers,
 a release, a pre-release or a git-describe build of it.
 */
module Releases {
  import opened Outcomes
  import opened GoText
  import opened Orders
  import opened Versions
  import opened VersionOrder
  import opened SemVer

  // numbers, then nothing, a pre-release, or the distance and tail git describe appends.
  datatype Suffix = Final | Before(pre: seq<Identifier>) | Described(distance: nat, tail: seq<string>)

  datatype Release = Release(numbers: seq<nat>, suffix: Suffix)

  predicate Writable(r: Release) {
    && r.numbers != [] && (forall i :: 0 <= i < |r.numbers| ==> r.numbers[i] <= INT_MAX)
    && match r.suffix
       case Final => true
       case Before(pre) => pre != [] && !DescribeShaped(pre) && forall i :: 0 <= i < |pre| ==> Plain(pre[i])
       case Described(distance, tail) =>
         && 0 < distance <= INT_MAX
         && tail != [] && (forall i :: 0 <= i < |tail| ==> PlainText(tail[i]))
         && (tail[0][0] == 'g' || tail[0][0] == 'G')
  }

  function PrintNumbers(numbers: seq<nat>): (texts: seq<string>)
    ensures |texts| == |numbers|
  {
    if numbers == [] then [] else [PrintNat(numbers[0])] + PrintNumbers(numbers[1..])
  }

  function Ending(suffix: Suffix): string {
    match suffix
    case Final => ""
    case Before(pre) => "-" + Join(PrintAll(pre), ".")
    case Described(distance, tail) => "-" + (PrintNat(distance) + "-" + Join(tail, "-"))
  }

  function Write(r: Release, marked: bool): string {
    Marked(Join(PrintNumbers(r.numbers), ".") + Ending(r.suffix), marked)
  }

  // ----- Which release is below which, without the comparison -----

  function At(numbers: seq<nat>, i: nat): nat {
    if i < |numbers| then numbers[i] else 0
  }

  ghost predicate NumbersBelow(a: seq<nat>, b: seq<nat>) {
    exists i: nat :: NumbersPartAt(a, b, i)
  }

  ghost predicate NumbersPartAt(a: seq<nat>, b: seq<nat>, i: nat) {
    At(a, i) < At(b, i) && forall j: nat :: j < i ==> At(a, j) == At(b, j)
  }

  ghost predicate NumbersSame(a: seq<nat>, b: seq<nat>) {
    forall i: nat :: At(a, i) == At(b, i)
  }

  ghost predicate WordBelow(s: string, t: string) {
    BelowAtFirstDifference(CharBelow, s, t)
  }

  // Pre-releases below the release, and the builds that git describes above it by distance.
  ghost predicate SuffixBelow(s: Suffix, t: Suffix) {
    match (s, t)
    case (Before(p), Before(q)) => PrePrecedes(p, q)
    case (Before(_), _) => true
    case (Final, Described(_, _)) => true
    case (Described(m, x), Described(n, y)) =>
      m < n || (m == n && BelowAtFirstDifference((v, w) => WordBelow(v, w), x, y))
    case _ => false
  }

  ghost predicate Below(a: Release, b: Release) {
    NumbersBelow(a.numbers, b.numbers) || (NumbersSame(a.numbers, b.numbers) && SuffixBelow(a.suffix, b.suffix))
  }

  // ----- Reading numbers -----

  lemma {:induction false} NumbersRead(numbers: seq<nat>)
    requires numbers != [] && forall i :: 0 <= i < |numbers| ==> numbers[i] <= INT_MAX
    ensures var core := Join(PrintNumbers(numbers), ".");
            && SegmentNumbers(Split(core, '.')) == Some(numbers)
            && core != "" && IsDigit(core[0]) && CoreText(core)
  {
    hide Split, SegmentNumber, SegmentNumbers, PrintNat, NoneOf, PlainText;
    var first := PrintNat(numbers[0]);
    SegmentOfPrint(numbers[0]);
    assert AllDigits(first);
    if |numbers| == 1 {
      assert PrintNumbers(numbers) == [first];
      SplitOne(first, '.');
      NoSegments();
      SegmentNumbersCons(first, [], numbers[0], []);
      assert [first] + [] == [first] && numbers == [numbers[0]] + [];
    } else {
      var rest := Join(PrintNumbers(numbers[1..]), ".");
      NumbersRead(numbers[1..]);
      assert PrintNumbers(numbers)[1..] == PrintNumbers(numbers[1..]);
      assert Join(PrintNumbers(numbers), ".") == first + ['.'] + rest;
      SplitMore(first, rest, '.');
      SegmentNumbersCons(first, Split(rest, '.'), numbers[0], numbers[1..]);
      assert numbers == [numbers[0]] + numbers[1..];
    }
  }

  lemma NoSegments()
    ensures SegmentNumbers([]) == Some([])
  {
  }

  // ----- Reading endings -----

  function Texts(suffix: Suffix): seq<string> {
    match suffix
    case Final => []
    case Before(pre) => PrintAll(pre)
    case Described(distance, tail) => [PrintNat(distance)] + tail
  }

  lemma EndingTexts(suffix: Suffix)
    requires Writable(Release([0], suffix))
    ensures forall i :: 0 <= i < |Texts(suffix)| ==> PlainText(Texts(suffix)[i])
    ensures suffix.Final? <==> Texts(suffix) == []
    ensures suffix.Before? ==> Ending(suffix) == "-" + Join(Texts(suffix), ".")
    ensures suffix.Described? ==> Ending(suffix) == "-" + Join(Texts(suffix), "-")
  {
    hide PrintNat, PlainText, Plain;
    match suffix
    case Final =>
    case Before(pre) => PrintAllPlain(pre);
    case Described(distance, tail) =>
      SegmentOfPrint(distance);
      assert Texts(suffix)[1..] == tail;
  }

  function InfoOf(r: Release): VersionInfo {
    VersionInfo(true, false, r.numbers,
                if r.suffix.Before? then PrintAll(r.suffix.pre) else [],
                if r.suffix.Described? then r.suffix.distance else 0,
                if r.suffix.Described? then r.suffix.tail else [])
  }

  lemma DescribedRead(distance: nat, tail: seq<string>)
    requires Writable(Release([0], Described(distance, tail)))
    ensures GitDescribe([PrintNat(distance)] + tail) == Some((distance, tail))
  {
    hide PrintNat, TrimSpace, Atoi, NoSpace, NoneOf;
    SegmentOfPrint(distance);
    PlainTextHas(PrintNat(distance));
    PlainTextHas(tail[0]);
    AtoiOfPrint(distance);
    assert ([PrintNat(distance)] + tail)[1..] == tail;
  }

  lemma EndingRead(r: Release)
    requires Writable(r)
    ensures NoSpace(Ending(r.suffix)) && (r.suffix.Final? <==> Ending(r.suffix) == "")
    ensures !r.suffix.Final? ==> Ending(r.suffix)[0] == '-'
    ensures Info(r.numbers, if r.suffix.Final? then "" else Ending(r.suffix)[1..]) == InfoOf(r)
  {
    hide Identifiers, GitDescribe, PlainText, Plain, Join, PrintNat, DescribeShaped, PrintAll;
    EndingTexts(r.suffix);
    if !r.suffix.Final? {
      var sep, texts := if r.suffix.Before? then '.' else '-', Texts(r.suffix);
      PlainListHasNoSpace(texts, [sep]);
      PlainListNotEmpty(texts, [sep]);
      IdentifiersReadBack(texts, sep);
      assert Ending(r.suffix)[1..] == Join(texts, [sep]);
      if r.suffix.Before? {
        DescribeRecognised(r.suffix.pre);
      } else {
        DescribedRead(r.suffix.distance, r.suffix.tail);
      }
    }
  }

  /** What is written is read back, whatever its numbers, identifiers, distance and tail. */
  lemma WrittenIsRead(r: Release, marked: bool)
    requires Writable(r)
    ensures Parse(Write(r, marked)) == InfoOf(r)
  {
    hide Parse, Split, SegmentNumbers, Info, CoreText, Marked, Join, Ending, NoSpace;
    NumbersRead(r.numbers);
    EndingRead(r);
    ParseShaped(Join(PrintNumbers(r.numbers), "."), Ending(r.suffix), marked, r.numbers);
  }

  // ----- Comparing -----

  lemma {:induction false} PaddedIff(a: seq<nat>, b: seq<nat>)
    ensures ComparePadded(a, b) < 0 <==> NumbersBelow(a, b)
    ensures ComparePadded(a, b) == 0 <==> NumbersSame(a, b)
    decreases |a| + |b|
  {
    if a == [] && b == [] {
      assert forall i: nat :: At(a, i) == At(b, i);
    } else {
      PaddedStep(a, b);
      var x, y := if a == [] then [] else a[1..], if b == [] then [] else b[1..];
      assert At(a, 0) == Head(a) && At(b, 0) == Head(b) && Rest(a) == x && Rest(b) == y;
      forall i: nat ensures At(a, i + 1) == At(x, i) && At(b, i + 1) == At(y, i) {
      }
      PaddedIff(x, y);
      if At(a, 0) != At(b, 0) {
        assert NumbersPartAt(a, b, 0) <==> At(a, 0) < At(b, 0);
      } else {
        RestParts(a, b, x, y);
      }
    }
  }

  lemma RestParts(a: seq<nat>, b: seq<nat>, x: seq<nat>, y: seq<nat>)
    requires At(a, 0) == At(b, 0) && forall i: nat :: At(a, i + 1) == At(x, i) && At(b, i + 1) == At(y, i)
    ensures NumbersBelow(a, b) <==> NumbersBelow(x, y)
    ensures NumbersSame(a, b) <==> NumbersSame(x, y)
  {
    hide At;
    if i: nat :| NumbersPartAt(a, b, i) {
      assert i > 0;
      forall j: nat | j < i - 1 ensures At(x, j) == At(y, j) {
        assert At(a, j + 1) == At(b, j + 1);
      }
      assert At(x, i - 1) == At(a, i - 1 + 1) && At(y, i - 1) == At(b, i - 1 + 1);
      assert NumbersPartAt(x, y, i - 1);
    }
    if i: nat :| NumbersPartAt(x, y, i) {
      forall j: nat | j < i + 1 ensures At(a, j) == At(b, j) {
        if j > 0 {
          assert At(a, j - 1 + 1) == At(x, j - 1) == At(y, j - 1) == At(b, j - 1 + 1);
        }
      }
      assert NumbersPartAt(a, b, i + 1);
    }
    if NumbersSame(x, y) {
      forall i: nat ensures At(a, i) == At(b, i) {
        if i > 0 {
          assert At(a, i - 1 + 1) == At(x, i - 1) == At(y, i - 1) == At(b, i - 1 + 1);
        }
      }
    }
    if NumbersSame(a, b) {
      forall i: nat ensures At(x, i) == At(y, i) {
        assert At(a, i + 1) == At(b, i + 1);
      }
    }
  }

  lemma {:induction false} TailBelowIff(x: seq<string>, y: seq<string>)
    ensures LexCompare(CompareText, x, y) < 0 <==> BelowAtFirstDifference((v, w) => WordBelow(v, w), x, y)
  {
    var below := (v, w) => WordBelow(v, w);
    hide CompareText, WordBelow;
    if x == [] || y == [] {
      if y != [] {
        assert DecidedAt(below, x, y, 0);
      }
    } else {
      WordBelowIff(x[0], y[0]);
      if x[0] != y[0] {
        DecidedAtOnce(below, x, y);
      } else {
        TailBelowIff(x[1..], y[1..]);
        DecidedShift(below, x, y);
      }
    }
  }

  lemma WordBelowIff(s: string, t: string)
    ensures CompareText(s, t) < 0 <==> WordBelow(s, t)
    ensures CompareText(s, t) == 0 <==> s == t
  {
    TextBelowIff(s, t);
  }

  lemma SuffixIff(a: Release, b: Release)
    requires Writable(a) && Writable(b) && ComparePadded(a.numbers, b.numbers) == 0
    ensures Compare(InfoOf(a), InfoOf(b)) < 0 <==> SuffixBelow(a.suffix, b.suffix)
  {
    hide ComparePadded, LexCompare, PrintAll, CompareIdentifier, BelowAtFirstDifference, Plain, PlainText;
    if a.suffix.Before? && b.suffix.Before? {
      PrereleaseBelowIff(a.suffix.pre, b.suffix.pre);
    }
    if a.suffix.Described? && b.suffix.Described? {
      TailBelowIff(a.suffix.tail, b.suffix.tail);
    }
  }

  /** Newer on the written strings is above: by numbers padded with zeros, then pre-releases
      below the release and described builds above it, by distance and then by tail. */
  lemma NewerIffAbove(a: Release, b: Release, markedA: bool, markedB: bool)
    requires Writable(a) && Writable(b)
    ensures IsVersionNewer(Write(a, markedA), Write(b, markedB)) <==> Below(a, b)
  {
    hide Parse, Write, Compare, ComparePadded, NumbersBelow, NumbersSame, SuffixBelow, Writable;
    WrittenIsRead(a, markedA);
    WrittenIsRead(b, markedB);
    PaddedIff(a.numbers, b.numbers);
    NumbersFirst(InfoOf(a), InfoOf(b));
    if ComparePadded(a.numbers, b.numbers) == 0 {
      SuffixIff(a, b);
    }
  }

  lemma NumbersFirst(x: VersionInfo, y: VersionInfo)
    ensures ComparePadded(x.numbers, y.numbers) != 0 ==> Compare(x, y) == ComparePadded(x.numbers, y.numbers)
  {
  }

  // ----- What is no release -----

  // A segment counts by its leading digits; too many make the version unreadable.
  lemma SegmentReads(digits: string, rest: string)
    requires AllDigits(digits) && Trimmed(digits + rest) && (rest == "" || !IsDigit(rest[0]))
    ensures SegmentNumber(digits + rest) ==
              if digits == "" then Some(0)
              else if DigitsValue(digits) <= 9223372036854775807 then Some(DigitsValue(digits)) else None
  {
    hide TrimSpace, Atoi, DigitsValue;
    LeadingDigits(digits, rest);
    if digits != "" {
      AtoiSigned(digits);
    }
  }

  lemma {:induction false} LeadingDigits(digits: string, rest: string)
    requires AllDigits(digits) && (rest == "" || !IsDigit(rest[0]))
    ensures DigitPrefix(digits + rest) == digits
  {
    if digits == "" {
      assert digits + rest == rest;
    } else {
      assert AllDigits(digits[1..]);
      LeadingDigits(digits[1..], rest);
      assert (digits + rest)[1..] == digits[1..] + rest;
    }
  }

  // One leading v and the space around it do not count.
  lemma SpaceIgnored(version: string)
    requires TrimSpace(version) == "" || TrimSpace(version)[0] != 'v'
    ensures Parse("v" + version) == Parse(TrimSpace(version))
  {
    hide TrimSpace, Span, SegmentNumbers, Split, Info;
    assert ("v" + version)[0] == 'v' && ("v" + version)[1..] == version;
    TrimTwice(version);
  }

  lemma TrimTwice(s: string)
    ensures TrimSpace(TrimSpace(s)) == TrimSpace(s)
  {
  }

  // A development build takes any release; nothing takes a build without a version.
  lemma WithoutVersion(r: Release, marked: bool)
    requires Writable(r)
    ensures IsVersionNewer("dev", Write(r, marked)) && !IsVersionNewer(Write(r, marked), "dev")
    ensures !IsVersionNewer("", Write(r, marked)) && !IsVersionNewer(Write(r, marked), "")
  {
    WrittenIsRead(r, marked);
    DevRead();
    hide Parse, Write, Compare;
  }

  lemma DevRead()
    ensures Parse("dev") == VersionInfo(false, true, [], [], 0, [])
    ensures Parse("") == VersionInfo(false, false, [], [], 0, [])
  {
  }

  // ----- The uploaded binary -----

  predicate SpellsDev(s: string) {
    s == "dev" || s == "Dev" || s == "dEv" || s == "deV" || s == "DEv" || s == "DeV" || s == "dEV" || s == "DEV"
  }

  lemma SpellsDevIff(s: string)
    ensures FoldsToDev(s) <==> SpellsDev(s)
  {
  }

  // Without a version of its own a server takes no upload.
  lemma UnversionedTakesNothing(current: string, detected: string)
    ensures var own := TrimSpace(if current != "" && current[0] == 'v' then current[1..] else current);
            BuildUploadedView(current, detected).upgradeSupported <==> own != "" && !SpellsDev(own)
    ensures BuildUploadedView(current, detected).readyToUpgrade <==>
              BuildUploadedView(current, detected).upgradeSupported && BuildUploadedView(current, detected).hasUpdate
  {
    hide TrimSpace, FoldsToDev, IsVersionNewer;
    SpellsDevIff(Normalize(current));
  }

  /** An uploaded release is ready exactly when it is above the running one. */
  lemma ReadyIffAbove(current: Release, detected: Release, markedA: bool, markedB: bool)
    requires Writable(current) && Writable(detected)
    ensures BuildUploadedView(Write(current, markedA), Write(detected, markedB)).readyToUpgrade <==> Below(current, detected)
  {
    hide Below, IsVersionNewer, Parse, Compare;
    NewerIffAbove(current, detected, markedA, markedB);
    NormalizeWritten(current, markedA);
    NormalizeWritten(detected, markedB);
    if Normalize(Write(current, markedA)) == Normalize(Write(detected, markedB)) {
      SameNormal(Write(current, markedA), Write(detected, markedB));
    }
    hide Write, Normalize;
  }

  lemma NormalizeWritten(r: Release, marked: bool)
    requires Writable(r)
    ensures Normalize(Write(r, marked)) != "" && !FoldsToDev(Normalize(Write(r, marked)))
  {
    hide Join, Ending, PrintNat, Split, SegmentNumbers, IsSpace;
    NumbersRead(r.numbers);
    EndingRead(r);
    var core := Join(PrintNumbers(r.numbers), ".");
    CoreTextHas(core);
    assert (core + Ending(r.suffix))[0] == core[0];
    NormalizeMarked(core + Ending(r.suffix), marked);
  }

  lemma SameNormal(a: string, b: string)
    requires Normalize(a) == Normalize(b)
    ensures !IsVersionNewer(a, b)
  {
    NewerIsStrictOrder(a, a, a);
    SameRecord(a, b);
    hide Parse, Compare;
  }

  lemma SameRecord(a: string, b: string)
    requires Normalize(a) == Normalize(b)
    ensures Parse(a) == Parse(b)
  {
    hide Normalize, Span, Split, SegmentNumbers, Info;
  }
}
