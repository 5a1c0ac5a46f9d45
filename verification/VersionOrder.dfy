/** The version comparison is a total preorder, and "newer" a strict order. */
module VersionOrder {
  import opened GoText
  import opened Orders
  import opened Versions

  lemma CharLawful()
    ensures Lawful(CompareChar)
  {
  }

  lemma TextLawful()
    ensures Lawful(CompareText)
  {
    CharLawful();
    forall a, b ensures -1 <= CompareText(a, b) <= 1 && CompareText(a, b) == -CompareText(b, a) {
      LexAntisymmetric(CompareChar, a, b);
    }
    forall a, b, c | CompareText(a, b) <= 0 && CompareText(b, c) <= 0 ensures CompareText(a, c) <= 0 {
      LexTransitive(CompareChar, a, b, c);
    }
  }

  lemma IdentifierLawful()
    ensures Lawful(CompareIdentifier)
  {
    TextLawful();
    hide CompareText, Atoi;
    forall a, b
      ensures -1 <= CompareIdentifier(a, b) <= 1 && CompareIdentifier(a, b) == -CompareIdentifier(b, a)
    {
      assert CompareText(a, b) == -CompareText(b, a);
    }
    forall a, b, c | CompareIdentifier(a, b) <= 0 && CompareIdentifier(b, c) <= 0
      ensures CompareIdentifier(a, c) <= 0
    {
    }
  }

  lemma {:induction false} PaddedAntisymmetric(a: seq<int>, b: seq<int>)
    ensures -1 <= ComparePadded(a, b) <= 1 && ComparePadded(a, b) == -ComparePadded(b, a)
    decreases |a| + |b|
  {
    if a != [] || b != [] {
      PaddedAntisymmetric(if a == [] then [] else a[1..], if b == [] then [] else b[1..]);
    }
  }

  function Head(a: seq<int>): int { if a == [] then 0 else a[0] }

  function Rest(a: seq<int>): seq<int> { if a == [] then [] else a[1..] }

  lemma PaddedStep(a: seq<int>, b: seq<int>)
    ensures ComparePadded(a, b) == if Head(a) != Head(b) then CompareInt(Head(a), Head(b)) else ComparePadded(Rest(a), Rest(b))
  {
  }

  lemma {:induction false} PaddedTransitive(a: seq<int>, b: seq<int>, c: seq<int>)
    requires ComparePadded(a, b) <= 0 && ComparePadded(b, c) <= 0
    ensures ComparePadded(a, c) <= 0
    ensures ComparePadded(a, c) == 0 ==> ComparePadded(a, b) == 0 && ComparePadded(b, c) == 0
    ensures ComparePadded(a, b) == 0 && ComparePadded(b, c) == 0 ==> ComparePadded(a, c) == 0
    decreases |a| + |b| + |c|
  {
    if a != [] || b != [] || c != [] {
      PaddedStep(a, b);
      PaddedStep(b, c);
      PaddedStep(a, c);
      if Head(a) == Head(b) == Head(c) {
        hide ComparePadded;
        PaddedTransitive(Rest(a), Rest(b), Rest(c));
      }
    }
  }

  // Trailing zeros do not matter.
  lemma {:induction false} PaddingIrrelevant(a: seq<int>, zeros: nat, b: seq<int>)
    ensures ComparePadded(a + seq(zeros, _ => 0), b) == ComparePadded(a, b)
    decreases |a| + zeros + |b|
  {
    var padded := a + seq(zeros, _ => 0);
    if padded != [] || b != [] {
      PaddedStep(padded, b);
      PaddedStep(a, b);
      assert Head(padded) == Head(a);
      if a != [] {
        assert Rest(padded) == Rest(a) + seq(zeros, _ => 0);
        PaddingIrrelevant(Rest(a), zeros, Rest(b));
      } else if zeros > 0 {
        assert Rest(padded) == [] + seq(zeros - 1, _ => 0);
        PaddingIrrelevant([], zeros - 1, Rest(b));
      } else {
        assert padded == a;
      }
    }
  }

  lemma PrereleaseLawful()
    ensures Lawful(ComparePrerelease)
  {
    IdentifierLawful();
    forall p, q
      ensures -1 <= ComparePrerelease(p, q) <= 1 && ComparePrerelease(p, q) == -ComparePrerelease(q, p)
    {
      LexAntisymmetric(CompareIdentifier, p, q);
    }
    forall p, q, r | ComparePrerelease(p, q) <= 0 && ComparePrerelease(q, r) <= 0
      ensures ComparePrerelease(p, r) <= 0
    {
      if p != [] && q != [] && r != [] {
        LexTransitive(CompareIdentifier, p, q, r);
      }
    }
  }

  // Compare is a total preorder on all version records.
  lemma CompareAntisymmetric(a: VersionInfo, b: VersionInfo)
    ensures -1 <= Compare(a, b) <= 1
    ensures Compare(a, b) == -Compare(b, a)
  {
    PaddedAntisymmetric(a.numbers, b.numbers);
    TextLawful();
    LexAntisymmetric(CompareText, a.tail, b.tail);
    PrereleaseLawful();
  }

  lemma CompareTransitive(a: VersionInfo, b: VersionInfo, c: VersionInfo)
    requires Compare(a, b) <= 0 && Compare(b, c) <= 0
    ensures Compare(a, c) <= 0
  {
    PaddedTransitiveHere(a, b, c);
    TextLawful();
    PrereleaseLawful();
    hide ComparePadded, LexCompare, ComparePrerelease, Lawful;
    if ComparePadded(a.numbers, b.numbers) == 0 && ComparePadded(b.numbers, c.numbers) == 0 {
      if a.distance == b.distance == c.distance {
        if a.distance > 0 {
          LexTransitive(CompareText, a.tail, b.tail, c.tail);
        } else {
          PrereleaseTransitive(a.prerelease, b.prerelease, c.prerelease);
        }
      }
    }
  }

  lemma PrereleaseTransitive(p: seq<string>, q: seq<string>, r: seq<string>)
    requires ComparePrerelease(p, q) <= 0 && ComparePrerelease(q, r) <= 0
    ensures ComparePrerelease(p, r) <= 0
  {
    PrereleaseLawful();
  }

  lemma PaddedTransitiveHere(a: VersionInfo, b: VersionInfo, c: VersionInfo)
    requires Compare(a, b) <= 0 && Compare(b, c) <= 0
    ensures ComparePadded(a.numbers, b.numbers) <= 0 && ComparePadded(b.numbers, c.numbers) <= 0
    ensures ComparePadded(a.numbers, c.numbers) <= 0
    ensures ComparePadded(a.numbers, c.numbers) == 0 <==>
              ComparePadded(a.numbers, b.numbers) == 0 && ComparePadded(b.numbers, c.numbers) == 0
  {
    PaddedAntisymmetric(a.numbers, b.numbers);
    PaddedAntisymmetric(b.numbers, c.numbers);
    PaddedTransitive(a.numbers, b.numbers, c.numbers);
  }

  lemma CompareIsTotalPreorder()
    ensures Lawful(Compare)
  {
    forall a, b ensures -1 <= Compare(a, b) <= 1 && Compare(a, b) == -Compare(b, a) {
      CompareAntisymmetric(a, b);
    }
    forall a, b, c | Compare(a, b) <= 0 && Compare(b, c) <= 0 ensures Compare(a, c) <= 0 {
      CompareTransitive(a, b, c);
    }
  }

  lemma ZeroPaddingIrrelevant(a: VersionInfo, b: VersionInfo, zeros: nat)
    ensures Compare(a.(numbers := a.numbers + seq(zeros, _ => 0)), b) == Compare(a, b)
    ensures Compare(b, a.(numbers := a.numbers + seq(zeros, _ => 0))) == Compare(b, a)
  {
    PaddingIrrelevant(a.numbers, zeros, b.numbers);
    CompareAntisymmetric(a, b);
    CompareAntisymmetric(a.(numbers := a.numbers + seq(zeros, _ => 0)), b);
  }

  lemma DevIsNotValid(version: string)
    ensures !(Parse(version).isDev && Parse(version).valid)
  {
    hide TrimSpace, Split, Span, SegmentNumbers, Identifiers;
  }

  // Newer is a strict order on all strings.
  lemma NewerIsStrictOrder(a: string, b: string, c: string)
    ensures !IsVersionNewer(a, a)
    ensures IsVersionNewer(a, b) ==> !IsVersionNewer(b, a)
    ensures IsVersionNewer(a, b) && IsVersionNewer(b, c) ==> IsVersionNewer(a, c)
  {
    DevIsNotValid(a);
    DevIsNotValid(b);
    CompareIsTotalPreorder();
    hide Parse, Compare;
    var x, y, z := Parse(a), Parse(b), Parse(c);
    assert Compare(x, x) == -Compare(x, x);
    assert Compare(x, y) == -Compare(y, x);
    if Compare(x, y) < 0 && Compare(y, z) < 0 {
      StrictOnEitherSide(Compare, x, y, z);
    }
  }

  ghost predicate UpgradeChain(versions: seq<string>) {
    forall i :: 0 <= i < |versions| - 1 ==> BuildUploadedView(versions[i], versions[i + 1]).readyToUpgrade
  }

  // Along any chain of accepted upgrades the last binary is newer than the first, so
  // no chain comes back to where it started.
  lemma {:induction false} UpgradesNeverCycle(versions: seq<string>)
    requires |versions| >= 2 && UpgradeChain(versions)
    ensures IsVersionNewer(versions[0], versions[|versions| - 1])
    ensures versions[0] != versions[|versions| - 1]
  {
    hide IsVersionNewer;
    var n := |versions|;
    assert BuildUploadedView(versions[n - 2], versions[n - 1]).readyToUpgrade;
    NewerIsStrictOrder(versions[0], versions[n - 2], versions[n - 1]);
    if n > 2 {
      UpgradesNeverCycle(versions[..n - 1]);
    }
  }
}
