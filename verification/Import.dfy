/** Import preview and import of subscription nodes (service/source_config.go). */
module Import {
  import opened Outcomes
  import opened GoText

  datatype ParsedNode = ParsedNode(
    name: string, kind: string, server: string, port: int, fingerprint: string, metadataJson: string)

  // A row of the proxy node pool; its fingerprint carries a unique index.
  datatype Row = Row(sourceConfigId: int, sourceConfigName: string, node: ParsedNode, enabled: bool, lastTestStatus: string)

  datatype SourceConfig = SourceConfig(
    id: int, filename: string, rawContent: string, status: string, importedNodes: int, duplicateNodes: int)

  datatype Scope = Fresh | InBatch | InDatabase

  datatype Preview = Preview(scopes: seq<Scope>, duplicates: nat, importable: nat)

  datatype ImportResult = Imported(imported: nat, skipped: nat) | NoSuchConfig | ParseFailed | NothingSelected | Conflict

  const PREVIEW_LIMIT := 100

  function Fingerprints(nodes: seq<ParsedNode>): set<string> {
    set n | n in nodes :: n.fingerprint
  }

  function PoolFingerprints(pool: seq<Row>): set<string> {
    set r | r in pool :: r.node.fingerprint
  }

  /** FindExistingNodeFingerprints: those of the given ones that the pool holds. */
  function Existing(pool: seq<Row>, nodes: seq<ParsedNode>): set<string> {
    Fingerprints(nodes) * PoolFingerprints(pool)
  }

  // ----- The two loops -----

  /** Where a node stands: earlier in the batch, in the database, or new. */
  function ScopeOf(node: ParsedNode, seen: set<string>, existing: set<string>): Scope {
    if node.fingerprint in seen then InBatch
    else if node.fingerprint in existing then InDatabase
    else Fresh
  }

  function Scopes(nodes: seq<ParsedNode>, seen: set<string>, existing: set<string>): (scopes: seq<Scope>)
    ensures |scopes| == |nodes|
    decreases |nodes|
  {
    if nodes == [] then []
    else [ScopeOf(nodes[0], seen, existing)] + Scopes(nodes[1..], seen + {nodes[0].fingerprint}, existing)
  }

  // Node i stands against the fingerprints before it.
  lemma {:induction false} ScopeAt(nodes: seq<ParsedNode>, seen: set<string>, existing: set<string>, i: nat)
    requires i < |nodes|
    ensures Scopes(nodes, seen, existing)[i] == ScopeOf(nodes[i], seen + Fingerprints(nodes[..i]), existing)
    decreases |nodes|
  {
    if i == 0 {
      assert seen + Fingerprints(nodes[..0]) == seen;
    } else {
      var f := nodes[0].fingerprint;
      ScopeAt(nodes[1..], seen + {f}, existing, i - 1);
      assert nodes[..i] == [nodes[0]] + nodes[1..][..i - 1];
      assert seen + Fingerprints(nodes[..i]) == (seen + {f}) + Fingerprints(nodes[1..][..i - 1]);
    }
  }

  function CountFresh(scopes: seq<Scope>): (n: nat)
    ensures n <= |scopes|
  {
    if scopes == [] then 0 else (if scopes[0].Fresh? then 1 else 0) + CountFresh(scopes[1..])
  }

  lemma {:induction false} CountFreshSnoc(scopes: seq<Scope>, x: Scope)
    ensures CountFresh(scopes + [x]) == CountFresh(scopes) + if x.Fresh? then 1 else 0
  {
    if scopes != [] {
      CountFreshSnoc(scopes[1..], x);
      assert (scopes + [x])[1..] == scopes[1..] + [x];
    }
  }

  /** The nodes an import creates. */
  function FreshNodes(nodes: seq<ParsedNode>, seen: set<string>, existing: set<string>): (kept: seq<ParsedNode>)
    ensures |kept| <= |nodes|
    decreases |nodes|
  {
    if nodes == [] then []
    else
      var rest := FreshNodes(nodes[1..], seen + {nodes[0].fingerprint}, existing);
      if ScopeOf(nodes[0], seen, existing).Fresh? then [nodes[0]] + rest else rest
  }

  method BuildPreviewNodes(nodes: seq<ParsedNode>, existing: set<string>) returns (preview: Preview)
    ensures preview == PreviewOf(nodes, existing)
  {
    hide Scopes, CountFresh;
    ghost var all := Scopes(nodes, {}, existing);
    var batch: set<string> := {};
    var scopes: seq<Scope> := [];
    var duplicates: nat, importable: nat := 0, 0;
    assert all[..0] == [];
    CountFreshNone();
    for i := 0 to |nodes|
      invariant batch == Fingerprints(nodes[..i])
      invariant scopes == if i <= PREVIEW_LIMIT then all[..i] else all[..PREVIEW_LIMIT]
      invariant duplicates + importable == i
      invariant importable == CountFresh(all[..i])
    {
      ScopeAt(nodes, {}, existing, i);
      assert {} + batch == batch;
      CountFreshSnoc(all[..i], all[i]);
      assert all[..i + 1] == all[..i] + [all[i]];
      assert nodes[..i + 1] == nodes[..i] + [nodes[i]];
      var scope := Fresh;
      if nodes[i].fingerprint in batch {
        scope := InBatch;
        duplicates := duplicates + 1;
      } else {
        batch := batch + {nodes[i].fingerprint};
        if nodes[i].fingerprint in existing {
          scope := InDatabase;
          duplicates := duplicates + 1;
        } else {
          importable := importable + 1;
        }
      }
      assert scope == all[i];
      if |scopes| < PREVIEW_LIMIT {
        scopes := scopes + [scope];
      }
    }
    assert all[..|nodes|] == all;
    preview := Preview(scopes, duplicates, importable);
  }

  lemma CountFreshNone()
    ensures CountFresh([]) == 0
  {
  }

  function PreviewOf(nodes: seq<ParsedNode>, existing: set<string>): Preview {
    var scopes := Scopes(nodes, {}, existing);
    Preview(if |scopes| <= PREVIEW_LIMIT then scopes else scopes[..PREVIEW_LIMIT],
            |nodes| - CountFresh(scopes), CountFresh(scopes))
  }

  function NonBlank(fingerprints: seq<string>): set<string> {
    set f | f in fingerprints && TrimSpace(f) != "" :: TrimSpace(f)
  }

  function Chosen(nodes: seq<ParsedNode>, selected: set<string>): seq<ParsedNode> {
    if nodes == [] then []
    else if nodes[0].fingerprint in selected then [nodes[0]] + Chosen(nodes[1..], selected)
    else Chosen(nodes[1..], selected)
  }

  /** filterParsedNodes: no usable fingerprint selects everything. */
  function Selected(nodes: seq<ParsedNode>, fingerprints: seq<string>): seq<ParsedNode> {
    if NonBlank(fingerprints) == {} then nodes else Chosen(nodes, NonBlank(fingerprints))
  }

  method FilterParsedNodes(nodes: seq<ParsedNode>, fingerprints: seq<string>) returns (filtered: seq<ParsedNode>)
    ensures filtered == Selected(nodes, fingerprints)
  {
    hide TrimSpace, NonBlank;
    if |fingerprints| == 0 {
      NonBlankNone();
      return nodes;
    }
    var selected: set<string> := {};
    NonBlankNone();
    for i := 0 to |fingerprints|
      invariant selected == NonBlank(fingerprints[..i])
    {
      NonBlankSnoc(fingerprints[..i], fingerprints[i]);
      assert fingerprints[..i + 1] == fingerprints[..i] + [fingerprints[i]];
      if TrimSpace(fingerprints[i]) != "" {
        selected := selected + {TrimSpace(fingerprints[i])};
      }
    }
    assert fingerprints[..|fingerprints|] == fingerprints;
    if selected == {} {
      return nodes;
    }
    filtered := [];
    for i := 0 to |nodes|
      invariant filtered + Chosen(nodes[i..], selected) == Chosen(nodes, selected)
    {
      assert nodes[i..][1..] == nodes[i + 1..];
      if nodes[i].fingerprint in selected {
        filtered := filtered + [nodes[i]];
      }
    }
  }

  lemma NonBlankNone()
    ensures NonBlank([]) == {}
  {
  }

  lemma NonBlankSnoc(fingerprints: seq<string>, last: string)
    ensures NonBlank(fingerprints + [last]) ==
              NonBlank(fingerprints) + if TrimSpace(last) != "" then {TrimSpace(last)} else {}
  {
    hide TrimSpace;
  }

  function ToRows(config: SourceConfig, nodes: seq<ParsedNode>): (rows: seq<Row>)
    ensures |rows| == |nodes|
    ensures forall i :: 0 <= i < |nodes| ==> rows[i] == Row(config.id, config.filename, nodes[i], true, "unknown")
  {
    seq(|nodes|, i requires 0 <= i < |nodes| => Row(config.id, config.filename, nodes[i], true, "unknown"))
  }

  predicate UniqueRows(rows: seq<Row>) {
    forall i, j :: 0 <= i < j < |rows| ==> rows[i].node.fingerprint != rows[j].node.fingerprint
  }

  // ----- The database -----

  class Database {
    var pool: seq<Row>
    var configs: map<int, SourceConfig>

    // tx.Create(&nodes) and tx.Save(config) in one transaction: a fingerprint that is
    // taken rolls everything back.
    method PersistImportedNodes(config: SourceConfig, rows: seq<Row>, skipped: nat) returns (result: ImportResult)
      modifies this
      ensures if UniqueRows(old(pool) + rows) then
                && result == Imported(|rows|, skipped)
                && pool == old(pool) + rows
                && configs == old(configs)[config.id :=
                     config.(status := "imported", importedNodes := |rows|, duplicateNodes := skipped)]
              else
                result == Conflict && pool == old(pool) && configs == old(configs)
    {
      if !UniqueRows(pool + rows) {
        return Conflict;
      }
      pool := pool + rows;
      configs := configs[config.id := config.(status := "imported", importedNodes := |rows|, duplicateNodes := skipped)];
      result := Imported(|rows|, skipped);
    }

    method ImportSourceConfig(parse: string -> Option<seq<ParsedNode>>, id: int, fingerprints: seq<string>)
      returns (result: ImportResult)
      requires id in configs ==> configs[id].id == id
      modifies this
      ensures (result, pool) == ImportOutcome(parse, old(pool), old(configs), id, fingerprints)
      ensures configs == if result.Imported? then
                           old(configs)[id := old(configs)[id].(status := "imported", importedNodes := result.imported,
                                                                duplicateNodes := result.skipped)]
                         else old(configs)
    {
      hide Selected, FreshNodes, Existing, UniqueRows;
      if id !in configs {
        return NoSuchConfig;
      }
      var config := configs[id];
      var parsed := parse(config.rawContent);
      if parsed.None? {
        return ParseFailed;
      }
      var selected := FilterParsedNodes(parsed.value, fingerprints);
      if |selected| == 0 {
        return NothingSelected;
      }
      var existing := Existing(pool, parsed.value);
      var toCreate, skipped := PlanImport(selected, existing);
      if |toCreate| == 0 {
        configs := configs[id := config.(status := "imported", importedNodes := 0, duplicateNodes := skipped)];
        assert pool + ToRows(config, toCreate) == pool;
        return Imported(0, skipped);
      }
      result := PersistImportedNodes(config, ToRows(config, toCreate), skipped);
    }
  }

  method PlanImport(selected: seq<ParsedNode>, existing: set<string>) returns (toCreate: seq<ParsedNode>, skipped: nat)
    ensures toCreate == FreshNodes(selected, {}, existing)
    ensures skipped == |selected| - |toCreate|
  {
    var batch: set<string> := {};
    toCreate := [];
    skipped := 0;
    for i := 0 to |selected|
      invariant toCreate + FreshNodes(selected[i..], batch, existing) == FreshNodes(selected, {}, existing)
      invariant skipped + |toCreate| == i
    {
      assert selected[i..][1..] == selected[i + 1..];
      ghost var rest := FreshNodes(selected[i + 1..], batch + {selected[i].fingerprint}, existing);
      assert (toCreate + [selected[i]]) + rest == toCreate + ([selected[i]] + rest);
      if selected[i].fingerprint in batch {
        assert batch + {selected[i].fingerprint} == batch;
        skipped := skipped + 1;
        continue;
      }
      batch := batch + {selected[i].fingerprint};
      if selected[i].fingerprint in existing {
        skipped := skipped + 1;
        continue;
      }
      toCreate := toCreate + [selected[i]];
    }
  }

  /** The answer of an undisturbed import, and the pool after it. */
  function ImportOutcome(parse: string -> Option<seq<ParsedNode>>, pool: seq<Row>, configs: map<int, SourceConfig>,
                         id: int, fingerprints: seq<string>): (ImportResult, seq<Row>)
  {
    if id !in configs then (NoSuchConfig, pool)
    else
      match parse(configs[id].rawContent)
      case None => (ParseFailed, pool)
      case Some(nodes) =>
        var selected := Selected(nodes, fingerprints);
        if selected == [] then (NothingSelected, pool)
        else
          var toCreate := FreshNodes(selected, {}, Existing(pool, nodes));
          if toCreate == [] || UniqueRows(pool + ToRows(configs[id], toCreate)) then
            (Imported(|toCreate|, |selected| - |toCreate|), pool + ToRows(configs[id], toCreate))
          else (Conflict, pool)
  }
}
