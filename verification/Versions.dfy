/** Version parsing and ordering of the self-updater (service/update.go). */
module Versions {
  import opened Outcomes
  import opened GoText
  import opened Orders

  datatype VersionInfo = VersionInfo(
    valid: bool, isDev: bool, numbers: seq<int>, prerelease: seq<string>,
    distance: int, tail: seq<string>)

  const INVALID := VersionInfo(false, false, [], [], 0, [])

  // ----- Parsing -----

  /** normalizeVersion: at most one leading v, then surrounding space. */
  function Normalize(version: string): string {
    TrimSpace(if version != "" && version[0] == 'v' then version[1..] else version)
  }

  function DigitPrefix(s: string): (d: string)
    ensures AllDigits(d)
  {
    if s == [] || !IsDigit(s[0]) then [] else [s[0]] + DigitPrefix(s[1..])
  }

  /** A segment without leading digits counts as zero. */
  function SegmentNumber(segment: string): Option<int> {
    var digits := DigitPrefix(TrimSpace(segment));
    if digits == [] then Some(0) else Atoi(digits)
  }

  function SegmentNumbers(segments: seq<string>): Option<seq<int>> {
    if segments == [] then Some([])
    else
      match (SegmentNumber(segments[0]), SegmentNumbers(segments[1..]))
      case (Some(n), Some(rest)) => Some([n] + rest)
      case _ => None
  }

  const IDENTIFIER_SEPARATORS: set<char> := {'.', '-'}

  function Identifiers(prerelease: string): seq<string> {
    TrimmedNonEmpty(Fields(TrimSpace(prerelease), IDENTIFIER_SEPARATORS))
  }

  /** A positive count followed by a commit token makes a git-describe suffix. */
  function GitDescribe(ids: seq<string>): Option<(int, seq<string>)> {
    if |ids| < 2 then None
    else
      match Atoi(TrimSpace(ids[0]))
      case None => None
      case Some(distance) =>
        var token := TrimSpace(ids[1]);
        if distance > 0 && token != "" && (token[0] == 'g' || token[0] == 'G') then Some((distance, ids[1..])) else None
  }

  function Info(numbers: seq<int>, prerelease: string): VersionInfo {
    var plain := VersionInfo(|numbers| > 0, false, numbers, [], 0, []);
    if prerelease == "" then plain
    else
      match GitDescribe(Identifiers(prerelease))
      case Some((distance, tail)) => plain.(distance := distance, tail := tail)
      case None => plain.(prerelease := Identifiers(prerelease))
  }

  function Parse(version: string): VersionInfo {
    var normalized := Normalize(version);
    if normalized == "" then INVALID
    else if normalized == "dev" then INVALID.(isDev := true)
    else
      var n := Span(normalized, {'-'});
      var prerelease := if n < |normalized| then normalized[n + 1..] else "";
      match SegmentNumbers(Split(normalized[..n], '.'))
      case None => INVALID
      case Some(numbers) => Info(numbers, prerelease)
  }

  method SplitPrereleaseIdentifiers(value: string) returns (filtered: seq<string>)
    ensures filtered == Identifiers(value)
  {
    var parts := Fields(TrimSpace(value), IDENTIFIER_SEPARATORS);
    filtered := [];
    hide Fields, TrimSpace;
    for i := 0 to |parts|
      invariant filtered + TrimmedNonEmpty(parts[i..]) == TrimmedNonEmpty(parts)
    {
      assert parts[i..][1..] == parts[i + 1..];
      var part := TrimSpace(parts[i]);
      if part != "" {
        filtered := filtered + [part];
      }
    }
  }

  method ParseSegment(segment: string) returns (value: Option<int>)
    ensures value == SegmentNumber(segment)
  {
    var s := TrimSpace(segment);
    var numeric := "";
    var i := 0;
    while i < |s| && IsDigit(s[i])
      invariant i <= |s|
      invariant numeric + DigitPrefix(s[i..]) == DigitPrefix(s)
    {
      numeric := numeric + [s[i]];
      i := i + 1;
    }
    assert DigitPrefix(s) == numeric + DigitPrefix(s[i..]) == numeric + [] == numeric;
    if |numeric| == 0 {
      return Some(0);
    }
    value := Atoi(numeric);
  }

  function Prepend(front: seq<int>, rest: Option<seq<int>>): Option<seq<int>> {
    if rest.None? then None else Some(front + rest.value)
  }

  method ParseSegments(segments: seq<string>) returns (parts: Option<seq<int>>)
    ensures parts == SegmentNumbers(segments)
  {
    var numbers: seq<int> := [];
    assert forall rest: seq<int> :: [] + rest == rest;
    for i := 0 to |segments|
      invariant SegmentNumbers(segments) == Prepend(numbers, SegmentNumbers(segments[i..]))
    {
      var value := ParseSegment(segments[i]);
      hide SegmentNumber;
      assert segments[i..][1..] == segments[i + 1..];
      assert SegmentNumbers(segments[i..])
          == if value.None? then None else Prepend([value.value], SegmentNumbers(segments[i + 1..]));
      if value.None? {
        return None;
      }
      assert forall rest: seq<int> :: numbers + ([value.value] + rest) == (numbers + [value.value]) + rest;
      numbers := numbers + [value.value];
    }
    assert numbers + [] == numbers;
    parts := Some(numbers);
  }

  method ParseVersionInfo(version: string) returns (info: VersionInfo)
    ensures info == Parse(version)
  {
    hide TrimSpace, Split, Span, SegmentNumbers, Identifiers, GitDescribe;
    var normalized := Normalize(version);
    if normalized == "" || normalized == "dev" {
      return VersionInfo(false, normalized == "dev", [], [], 0, []);
    }
    var base := normalized;
    var prerelease := "";
    var separator := Span(normalized, {'-'});
    if separator < |normalized| {
      base := normalized[..separator];
      prerelease := normalized[separator + 1..];
    }
    var segments := Split(base, '.');
    assert base == normalized[..separator];
    var parts := ParseSegments(segments);
    if parts.None? {
      return INVALID;
    }
    info := VersionInfo(|parts.value| > 0, false, parts.value, [], 0, []);
    if prerelease != "" {
      var identifiers := SplitPrereleaseIdentifiers(prerelease);
      var describe := GitDescribe(identifiers);
      if describe.Some? {
        info := info.(distance := describe.value.0, tail := describe.value.1);
      } else {
        info := info.(prerelease := identifiers);
      }
    }
  }

  // ----- Comparing -----

  /** Missing numbers count as zero. */
  function ComparePadded(a: seq<int>, b: seq<int>): int {
    if a == [] && b == [] then 0
    else
      var x := if a == [] then 0 else a[0];
      var y := if b == [] then 0 else b[0];
      if x != y then CompareInt(x, y)
      else ComparePadded(if a == [] then [] else a[1..], if b == [] then [] else b[1..])
  }

  /** Numbers by value, numbers before text, text by code points. */
  function CompareIdentifier(x: string, y: string): int {
    match (Atoi(x), Atoi(y))
    case (Some(m), Some(n)) => CompareInt(m, n)
    case (Some(_), None) => -1
    case (None, Some(_)) => 1
    case (None, None) => CompareText(x, y)
  }

  /** No pre-release is above any. */
  function ComparePrerelease(p: seq<string>, q: seq<string>): int {
    if p == [] || q == [] then (if p == q then 0 else if p == [] then 1 else -1)
    else LexCompare(CompareIdentifier, p, q)
  }

  function Compare(left: VersionInfo, right: VersionInfo): int {
    var byNumbers := ComparePadded(left.numbers, right.numbers);
    if byNumbers != 0 then byNumbers
    else if left.distance != right.distance then CompareInt(left.distance, right.distance)
    else if left.distance > 0 then LexCompare(CompareText, left.tail, right.tail)
    else ComparePrerelease(left.prerelease, right.prerelease)
  }

  function Drop<T>(s: seq<T>, i: nat): seq<T> {
    if i < |s| then s[i..] else []
  }

  method CompareVersionInfo(left: VersionInfo, right: VersionInfo) returns (order: int)
    ensures order == Compare(left, right)
  {
    var maxLen := |left.numbers|;
    if |right.numbers| > maxLen {
      maxLen := |right.numbers|;
    }
    for index := 0 to maxLen
      invariant ComparePadded(Drop(left.numbers, index), Drop(right.numbers, index))
             == ComparePadded(left.numbers, right.numbers)
    {
      var leftValue := 0;
      var rightValue := 0;
      if index < |left.numbers| {
        leftValue := left.numbers[index];
      }
      if index < |right.numbers| {
        rightValue := right.numbers[index];
      }
      if leftValue < rightValue {
        return -1;
      }
      if leftValue > rightValue {
        return 1;
      }
    }
    if left.distance != right.distance {
      if left.distance < right.distance {
        return -1;
      }
      return 1;
    }
    if left.distance > 0 || right.distance > 0 {
      order := CompareTails(left.tail, right.tail);
      return;
    }
    if |left.prerelease| == 0 && |right.prerelease| == 0 {
      return 0;
    }
    if |left.prerelease| == 0 {
      return 1;
    }
    if |right.prerelease| == 0 {
      return -1;
    }
    order := CompareIdentifierLists(left.prerelease, right.prerelease);
  }

  method CompareTails(left: seq<string>, right: seq<string>) returns (order: int)
    ensures order == LexCompare(CompareText, left, right)
  {
    var maxLen := if |right| > |left| then |right| else |left|;
    for index := 0 to maxLen
      invariant LexCompare(CompareText, Drop(left, index), Drop(right, index)) == LexCompare(CompareText, left, right)
    {
      if index >= |left| {
        return -1;
      }
      if index >= |right| {
        return 1;
      }
      var byText := CompareText(left[index], right[index]);
      if byText != 0 {
        return byText;
      }
    }
    order := 0;
  }

  method CompareIdentifierLists(left: seq<string>, right: seq<string>) returns (order: int)
    ensures order == LexCompare(CompareIdentifier, left, right)
  {
    var maxLen := if |right| > |left| then |right| else |left|;
    for index := 0 to maxLen
      invariant LexCompare(CompareIdentifier, Drop(left, index), Drop(right, index))
             == LexCompare(CompareIdentifier, left, right)
    {
      if index >= |left| {
        return -1;
      }
      if index >= |right| {
        return 1;
      }
      var leftNumber, rightNumber := Atoi(left[index]), Atoi(right[index]);
      if leftNumber.Some? && rightNumber.Some? {
        if leftNumber.value < rightNumber.value {
          return -1;
        }
        if leftNumber.value > rightNumber.value {
          return 1;
        }
      } else if leftNumber.Some? {
        return -1;
      } else if rightNumber.Some? {
        return 1;
      } else {
        var byText := CompareText(left[index], right[index]);
        if byText != 0 {
          return byText;
        }
      }
    }
    order := 0;
  }

  // ----- Newer, and ready to upgrade -----

  predicate IsVersionNewer(current: string, latest: string) {
    var c, l := Parse(current), Parse(latest);
    if c.isDev then l.valid
    else c.valid && l.valid && Compare(c, l) < 0
  }

  /** strings.EqualFold(s, "dev") */
  predicate FoldsToDev(s: string) {
    |s| == 3 && s[0] in {'d', 'D'} && s[1] in {'e', 'E'} && s[2] in {'v', 'V'}
  }

  datatype UploadedBinary = UploadedBinary(upgradeSupported: bool, hasUpdate: bool, readyToUpgrade: bool)

  function BuildUploadedView(current: string, detected: string): UploadedBinary {
    var supported := Normalize(current) != "" && !FoldsToDev(Normalize(current));
    var hasUpdate := supported && Normalize(current) != Normalize(detected) && IsVersionNewer(current, detected);
    UploadedBinary(supported, hasUpdate, supported && hasUpdate)
  }
}
