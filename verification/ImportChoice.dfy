/** Which nodes an import takes, which it creates, and what the preview says of each. */
module ImportChoice {
  import opened Outcomes
  import opened GoText
  import opened Sequences
  import opened Import
  import opened ImportProof

  // ----- The nodes asked for -----

  predicate AskedFor(fingerprint: string, fingerprints: seq<string>) {
    fingerprint != "" && exists f | f in fingerprints :: TrimSpace(f) == fingerprint
  }

  predicate AsksForNone(fingerprints: seq<string>) {
    forall f | f in fingerprints :: Blank(f)
  }

  lemma {:induction false} ChosenAre(nodes: seq<ParsedNode>, selected: set<string>) returns (at: seq<nat>)
    ensures Picks(Chosen(nodes, selected), nodes, at)
    ensures forall i :: 0 <= i < |nodes| ==> (i in at <==> nodes[i].fingerprint in selected)
  {
    if nodes == [] {
      at := [];
    } else {
      var rest := ChosenAre(nodes[1..], selected);
      hide Picks, Behind;
      PicksCons(Chosen(nodes[1..], selected), nodes[1..], rest, nodes[0], nodes[0].fingerprint in selected);
      assert [nodes[0]] + nodes[1..] == nodes;
      at := Behind(rest, nodes[0].fingerprint in selected);
      hide Chosen, Increasing;
      forall i | 0 <= i < |nodes| ensures i in at <==> nodes[i].fingerprint in selected {
        if i > 0 {
          assert nodes[i] == nodes[1..][i - 1];
        }
      }
    }
  }

  lemma NonBlankIs(fingerprints: seq<string>)
    ensures NonBlank(fingerprints) == {} <==> AsksForNone(fingerprints)
    ensures forall f :: f in NonBlank(fingerprints) <==> AskedFor(f, fingerprints)
  {
    hide TrimSpace, Blank;
    forall f ensures TrimSpace(f) == "" <==> Blank(f) {
      BlankTrims(f);
    }
    if f :| f in fingerprints && !Blank(f) {
      assert TrimSpace(f) in NonBlank(fingerprints);
    }
  }

  lemma BlankTrims(s: string)
    ensures TrimSpace(s) == "" <==> Blank(s)
  {
    TrimSpaceBlank(s);
  }

  /** The selection is the nodes of the batch, in its order, whose fingerprint was asked for,
      after trimming; all of them when nothing but blanks was asked for. */
  lemma SelectedAre(nodes: seq<ParsedNode>, fingerprints: seq<string>) returns (at: seq<nat>)
    ensures AsksForNone(fingerprints) ==> Selected(nodes, fingerprints) == nodes
    ensures !AsksForNone(fingerprints) ==>
              && Picks(Selected(nodes, fingerprints), nodes, at)
              && forall i :: 0 <= i < |nodes| ==> (i in at <==> AskedFor(nodes[i].fingerprint, fingerprints))
  {
    hide NonBlank, AskedFor, AsksForNone, Picks, Chosen;
    NonBlankIs(fingerprints);
    at := ChosenAre(nodes, NonBlank(fingerprints));
  }

  lemma SelectedFingerprints(nodes: seq<ParsedNode>, fingerprints: seq<string>)
    ensures forall f :: f in Fingerprints(Selected(nodes, fingerprints)) <==>
              f in Fingerprints(nodes) && (AsksForNone(fingerprints) || AskedFor(f, fingerprints))
    ensures Selected(nodes, fingerprints) == [] <==>
              forall n :: n in nodes ==> !AsksForNone(fingerprints) && !AskedFor(n.fingerprint, fingerprints)
  {
    hide AskedFor, AsksForNone, Selected;
    var at := SelectedAre(nodes, fingerprints);
    if !AsksForNone(fingerprints) {
      var selected := Selected(nodes, fingerprints);
      forall n ensures n in selected <==> n in nodes && AskedFor(n.fingerprint, fingerprints) {
        if n in selected {
          var k :| 0 <= k < |selected| && selected[k] == n;
          assert at[k] in at;
        }
        if n in nodes && AskedFor(n.fingerprint, fingerprints) {
          var i :| 0 <= i < |nodes| && nodes[i] == n;
          var k :| 0 <= k < |at| && at[k] == i;
          assert selected[k] == n;
        }
      }
      if selected != [] {
        assert selected[0] in selected;
      }
    } else if nodes != [] {
      assert nodes[0] in nodes;
    }
  }

  // ----- The nodes created -----

  ghost predicate IsFirst(nodes: seq<ParsedNode>, i: nat) {
    i < |nodes| && forall j :: 0 <= j < i ==> nodes[j].fingerprint != nodes[i].fingerprint
  }

  /** Created are the first nodes of each fingerprint that is not known, in order. */
  lemma {:induction false} FreshAre(nodes: seq<ParsedNode>, seen: set<string>, existing: set<string>) returns (at: seq<nat>)
    ensures Picks(FreshNodes(nodes, seen, existing), nodes, at)
    ensures forall i :: 0 <= i < |nodes| ==>
              (i in at <==> IsFirst(nodes, i) && nodes[i].fingerprint !in seen && nodes[i].fingerprint !in existing)
    decreases |nodes|
  {
    if nodes == [] {
      at := [];
    } else {
      var f, tail := nodes[0].fingerprint, nodes[1..];
      var rest := FreshAre(tail, seen + {f}, existing);
      hide Picks, Behind;
      PicksCons(FreshNodes(tail, seen + {f}, existing), tail, rest, nodes[0], ScopeOf(nodes[0], seen, existing).Fresh?);
      assert [nodes[0]] + tail == nodes;
      at := Behind(rest, ScopeOf(nodes[0], seen, existing).Fresh?);
      forall i | 0 <= i < |nodes|
        ensures i in at <==> IsFirst(nodes, i) && nodes[i].fingerprint !in seen && nodes[i].fingerprint !in existing
      {
        if i > 0 {
          FirstLater(nodes, i);
        }
      }
    }
  }

  lemma FirstLater(nodes: seq<ParsedNode>, i: nat)
    requires 0 < i < |nodes|
    ensures nodes[i] == nodes[1..][i - 1]
    ensures IsFirst(nodes, i) <==> IsFirst(nodes[1..], i - 1) && nodes[0].fingerprint != nodes[i].fingerprint
  {
    assert forall j :: 0 < j < |nodes| ==> nodes[j] == nodes[1..][j - 1];
    if IsFirst(nodes, i) {
      forall j | 0 <= j < i - 1 ensures nodes[1..][j].fingerprint != nodes[i].fingerprint {
        assert nodes[j + 1].fingerprint != nodes[i].fingerprint;
      }
    }
  }

  /** An undisturbed import of a choice adds to the pool exactly the fingerprints of the batch
      that were asked for and that it lacked. */
  lemma ImportAddsChosen(parse: string -> Option<seq<ParsedNode>>, pool: seq<Row>, configs: map<int, SourceConfig>,
                         id: int, fingerprints: seq<string>)
    requires UniqueRows(pool) && id in configs && parse(configs[id].rawContent).Some?
    ensures var nodes := parse(configs[id].rawContent).value;
            var (result, after) := ImportOutcome(parse, pool, configs, id, fingerprints);
            && pool <= after
            && (forall f :: f in PoolFingerprints(after) <==>
                  || f in PoolFingerprints(pool)
                  || (f in Fingerprints(nodes) && (AsksForNone(fingerprints) || AskedFor(f, fingerprints))))
            && (result == NothingSelected <==>
                  forall n :: n in nodes ==> !AsksForNone(fingerprints) && !AskedFor(n.fingerprint, fingerprints))
            && (result != NothingSelected ==> result.Imported?)
  {
    hide Selected, AskedFor, AsksForNone, UniqueRows, FreshNodes;
    var nodes := parse(configs[id].rawContent).value;
    SelectedFingerprints(nodes, fingerprints);
    if Selected(nodes, fingerprints) != [] {
      ImportAccounts(parse, pool, configs, id, fingerprints);
    } else {
      assert Fingerprints(Selected(nodes, fingerprints)) == {};
    }
  }

  /** A record that is missing or cannot be parsed is refused before anything is chosen. */
  lemma ImportRefusedIff(parse: string -> Option<seq<ParsedNode>>, pool: seq<Row>, configs: map<int, SourceConfig>,
                         id: int, fingerprints: seq<string>)
    ensures var (result, after) := ImportOutcome(parse, pool, configs, id, fingerprints);
            && (result == NoSuchConfig <==> id !in configs)
            && (result == ParseFailed <==> id in configs && parse(configs[id].rawContent).None?)
            && (!result.Imported? ==> after == pool)
  {
    hide Selected, FreshNodes, UniqueRows;
  }

  // ----- The preview -----

  /** A node is marked by what comes before it in the batch, then by what the pool holds. */
  lemma ScopesAre(nodes: seq<ParsedNode>, existing: set<string>, i: nat)
    requires i < |nodes|
    ensures var scope := Scopes(nodes, {}, existing)[i];
            && (scope == InBatch <==> !IsFirst(nodes, i))
            && (scope == InDatabase <==> IsFirst(nodes, i) && nodes[i].fingerprint in existing)
            && (scope == Fresh <==> IsFirst(nodes, i) && nodes[i].fingerprint !in existing)
  {
    ScopeAt(nodes, {}, existing, i);
    var before := nodes[..i];
    if nodes[i].fingerprint in Fingerprints(before) {
      var n :| n in before && n.fingerprint == nodes[i].fingerprint;
      var j :| 0 <= j < i && nodes[j] == n;
    } else {
      forall j | 0 <= j < i ensures nodes[j].fingerprint != nodes[i].fingerprint {
        assert before[j] in before;
      }
    }
  }

  /** Importable are as many nodes as there are unknown fingerprints; the rest are duplicates,
      and the first hundred nodes are marked. */
  lemma PreviewCounts(nodes: seq<ParsedNode>, existing: set<string>)
    ensures var preview := PreviewOf(nodes, existing);
            && preview.importable == |Fingerprints(nodes) - existing|
            && preview.importable + preview.duplicates == |nodes|
            && |preview.scopes| == (if |nodes| < 100 then |nodes| else 100)
            && preview.scopes <= Scopes(nodes, {}, existing)
  {
    hide Scopes, CountFresh;
    FreshNodesCounted(nodes, {}, existing);
    FreshNodesAreNew(nodes, {}, existing);
    DistinctCount(FreshNodes(nodes, {}, existing));
    assert Fingerprints(nodes) - {} - existing == Fingerprints(nodes) - existing;
  }

  lemma {:induction false} DistinctCount(nodes: seq<ParsedNode>)
    requires DistinctFingerprints(nodes)
    ensures |Fingerprints(nodes)| == |nodes|
  {
    if nodes != [] {
      FingerprintsCons(nodes);
      DistinctCount(nodes[1..]);
    }
  }
}
