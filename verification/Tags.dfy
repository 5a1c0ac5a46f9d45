/** Normalising a node's tag list (service/proxy_node.go). */
module Tags {
  import opened GoText
  import opened Sequences

  const TAG_SEPARATORS: set<char> := {',', '，', ';', '；', '\n'}

  /** The tags a text lists: trimmed, non-empty, each at its first occurrence. */
  function TagList(tags: string): seq<string> {
    Unseen(TrimmedNonEmpty(Fields(tags, TAG_SEPARATORS)), {})
  }

  method NormalizeProxyNodeTags(tags: string) returns (normalized: string)
    ensures normalized == Join(TagList(tags), ", ")
  {
    hide Fields, Unseen, TrimSpace, Join;
    if TrimSpace(tags) == "" {
      BlankHasNoTags(tags);
      return "";
    }
    var parts := Fields(tags, TAG_SEPARATORS);
    var seen: set<string> := {};
    var result: seq<string> := [];
    for i := 0 to |parts|
      invariant result + Unseen(TrimmedNonEmpty(parts[i..]), seen) == TagList(tags)
    {
      assert parts[i..][1..] == parts[i + 1..];
      var tag := TrimSpace(parts[i]);
      ghost var rest := TrimmedNonEmpty(parts[i + 1..]);
      assert TrimmedNonEmpty(parts[i..]) == if tag == "" then rest else [tag] + rest;
      if tag == "" {
        continue;
      }
      UnseenStep(tag, rest, seen);
      if tag in seen {
        continue;
      }
      seen := seen + {tag};
      assert result + ([tag] + Unseen(rest, seen)) == (result + [tag]) + Unseen(rest, seen);
      result := result + [tag];
    }
    NothingUnseen(seen);
    assert parts[|parts|..] == [] && result + [] == result;
    return Join(result, ", ");
  }

  // ----- A text of white space lists nothing -----

  lemma {:induction false} AllBlank(parts: seq<string>)
    requires forall i :: 0 <= i < |parts| ==> TrimSpace(parts[i]) == ""
    ensures TrimmedNonEmpty(parts) == []
  {
    if parts != [] {
      AllBlank(parts[1..]);
    }
  }

  lemma BlankHasNoTags(tags: string)
    requires TrimSpace(tags) == ""
    ensures TagList(tags) == [] && Join(TagList(tags), ", ") == ""
  {
    hide TrimSpace;
    TrimSpaceBlank(tags);
    var parts := Fields(tags, TAG_SEPARATORS);
    forall i | 0 <= i < |parts| ensures TrimSpace(parts[i]) == "" {
      assert IsField(parts[i], tags, TAG_SEPARATORS);
      TrimSpaceBlank(parts[i]);
    }
    AllBlank(parts);
  }

  // ----- Reading a normalised list back -----

  predicate IsTag(tag: string) {
    tag != "" && Trimmed(tag) && NoneOf(tag, TAG_SEPARATORS)
  }

  predicate Lists(parts: seq<string>, tag: string) {
    tag != "" && exists i :: 0 <= i < |parts| && TrimSpace(parts[i]) == tag
  }

  lemma {:induction false} TrimmedNonEmptyMembers(parts: seq<string>, tag: string)
    ensures tag in TrimmedNonEmpty(parts) <==> Lists(parts, tag)
  {
    hide TrimSpace;
    if parts != [] {
      TrimmedNonEmptyMembers(parts[1..], tag);
      assert forall i :: 0 < i < |parts| ==> parts[i] == parts[1..][i - 1];
      if tag in TrimmedNonEmpty(parts[1..]) {
        var i :| 0 <= i < |parts[1..]| && TrimSpace(parts[1..][i]) == tag;
        assert TrimSpace(parts[i + 1]) == tag;
      }
    }
  }

  /** The list holds exactly the trimmed non-empty fields, none twice, in the order in
      which they first appear. */
  lemma TagListIsFirstOccurrences(tags: string)
    ensures forall tag :: tag in TagList(tags) <==> Lists(Fields(tags, TAG_SEPARATORS), tag)
    ensures Distinct(TagList(tags))
    ensures InOrderOf(TagList(tags), TrimmedNonEmpty(Fields(tags, TAG_SEPARATORS)))
  {
    hide Fields, TrimmedNonEmpty, Lists, InOrderOf, Distinct;
    var parts := Fields(tags, TAG_SEPARATORS);
    forall tag ensures tag in TrimmedNonEmpty(parts) <==> Lists(parts, tag) {
      TrimmedNonEmptyMembers(parts, tag);
    }
    UnseenInOrder(TrimmedNonEmpty(parts), {});
  }

  lemma TagsAreTags(tags: string)
    ensures forall tag :: tag in TagList(tags) ==> IsTag(tag)
  {
    var parts := Fields(tags, TAG_SEPARATORS);
    hide Fields, Unseen, TrimmedNonEmpty, TrimSpace, Trimmed;
    forall tag | tag in TagList(tags) ensures IsTag(tag) {
      TrimmedNonEmptyMembers(parts, tag);
      var i :| 0 <= i < |parts| && TrimSpace(parts[i]) == tag;
      assert IsField(parts[i], tags, TAG_SEPARATORS);
    }
  }

  // A joined list splits into its tags again, behind an optional leading space.
  lemma {:induction false} JoinedTagsSplit(tags: seq<string>, lead: string)
    requires lead == "" || (lead == " " && tags != [])
    requires forall tag :: tag in tags ==> IsTag(tag)
    ensures TrimmedNonEmpty(Fields(lead + Join(tags, ", "), TAG_SEPARATORS)) == tags
    decreases |tags|
  {
    hide TrimSpace, Fields, Join;
    if tags == [] {
      NothingJoined(lead);
    } else {
      var first := lead + tags[0];
      LeadTrims(lead, tags[0]);
      if |tags| == 1 {
        JoinOne(tags[0]);
        FieldThen(first, "", TAG_SEPARATORS);
        assert first + "" == first && tags == [tags[0]];
        NothingJoined("");
      } else {
        var rest := " " + Join(tags[1..], ", ");
        JoinMore(tags);
        assert lead + Join(tags, ", ") == first + ("," + rest);
        FieldThen(first, "," + rest, TAG_SEPARATORS);
        SkipComma(rest);
        JoinedTagsSplit(tags[1..], " ");
      }
    }
  }

  lemma NothingJoined(lead: string)
    requires lead == ""
    ensures lead + Join([], ", ") == "" && Fields("", TAG_SEPARATORS) == []
  {
  }

  lemma JoinOne(tag: string)
    ensures Join([tag], ", ") == tag
  {
  }

  lemma JoinMore(tags: seq<string>)
    requires |tags| > 1
    ensures Join(tags, ", ") == tags[0] + ("," + (" " + Join(tags[1..], ", ")))
  {
  }

  lemma SkipComma(rest: string)
    ensures Fields("," + rest, TAG_SEPARATORS) == Fields(rest, TAG_SEPARATORS)
  {
  }

  lemma LeadTrims(lead: string, tag: string)
    requires lead in {"", " "} && IsTag(tag)
    ensures TrimSpace(lead + tag) == tag && NoneOf(lead + tag, TAG_SEPARATORS)
  {
    hide TrimSpace;
    if lead == " " {
      assert lead + tag == [' '] + tag;
      TrimDropsLeadingSpace(tag);
    } else {
      assert lead + tag == tag;
    }
  }

  /** Splitting a normalised text gives the list it was made from. */
  lemma NormalizedReadsBack(tags: string)
    ensures TagList(Join(TagList(tags), ", ")) == TagList(tags)
    ensures TrimmedNonEmpty(Fields(Join(TagList(tags), ", "), TAG_SEPARATORS)) == TagList(tags)
  {
    hide Fields, Join, TrimmedNonEmpty, Unseen, IsTag;
    var list := TagList(tags);
    TagsAreTags(tags);
    JoinedTagsSplit(list, "");
    assert "" + Join(list, ", ") == Join(list, ", ");
    UnseenInOrder(TrimmedNonEmpty(Fields(tags, TAG_SEPARATORS)), {});
    UnseenOfDistinct(list, {});
  }

  /** Normalising a normalised text changes nothing. */
  lemma NormalizeIsIdempotent(tags: string)
    ensures Join(TagList(Join(TagList(tags), ", ")), ", ") == Join(TagList(tags), ", ")
  {
    hide Join, TagList;
    NormalizedReadsBack(tags);
  }

  /** Two texts normalise alike exactly when they list the same tags. */
  lemma NormalizeIsFaithful(a: string, b: string)
    ensures Join(TagList(a), ", ") == Join(TagList(b), ", ") <==> TagList(a) == TagList(b)
  {
    hide Join, TagList;
    NormalizedReadsBack(a);
    NormalizedReadsBack(b);
  }

  // ----- What separates tags -----

  predicate Cuts(c: char) {
    c == ',' || c == '，' || c == ';' || c == '；' || c == '\n'
  }

  lemma CutsAre(c: char)
    ensures c in TAG_SEPARATORS <==> Cuts(c)
  {
  }

  /** A text without a separator is one tag, trimmed, or none when blank; a separator cuts a
      text into what its two sides list, repetitions apart. */
  lemma TagsAreCut(a: string, c: char, b: string)
    ensures (forall x :: x in a ==> !Cuts(x)) ==> TagList(a) == if Blank(a) then [] else [TrimSpace(a)]
    ensures Cuts(c) ==>
              TagList(a + ([c] + b)) ==
                Unseen(TrimmedNonEmpty(Fields(a, TAG_SEPARATORS)) + TrimmedNonEmpty(Fields(b, TAG_SEPARATORS)), {})
  {
    hide TrimSpace, Fields, Unseen, TAG_SEPARATORS;
    if forall x :: x in a ==> !Cuts(x) {
      forall i | 0 <= i < |a| ensures a[i] !in TAG_SEPARATORS {
        CutsAre(a[i]);
        assert a[i] in a;
      }
      OneTag(a);
    }
    CutsAre(c);
    if Cuts(c) {
      FieldsAt(a, c, b, TAG_SEPARATORS);
      NonEmptyOfBoth(Fields(a, TAG_SEPARATORS), Fields(b, TAG_SEPARATORS));
    }
  }

  lemma OneTag(a: string)
    requires NoneOf(a, TAG_SEPARATORS)
    ensures TagList(a) == if Blank(a) then [] else [TrimSpace(a)]
  {
    hide TrimSpace;
    TrimSpaceBlank(a);
    var t := TrimSpace(a);
    NothingUnseen<string>({});
    assert [t][1..] == [] && Unseen([t], {}) == [t];
    if a == "" {
      assert Fields(a, TAG_SEPARATORS) == [];
    } else {
      FieldThen(a, "", TAG_SEPARATORS);
      assert a + "" == a && [a] + Fields("", TAG_SEPARATORS) == [a];
      assert [a][1..] == [];
      assert TrimmedNonEmpty([a]) == if t == "" then [] else [t];
    }
  }

  lemma {:induction false} NonEmptyOfBoth(a: seq<string>, b: seq<string>)
    ensures TrimmedNonEmpty(a + b) == TrimmedNonEmpty(a) + TrimmedNonEmpty(b)
  {
    hide TrimSpace;
    if a == [] {
      assert a + b == b;
    } else {
      assert (a + b)[1..] == a[1..] + b;
      NonEmptyOfBoth(a[1..], b);
    }
  }
}
