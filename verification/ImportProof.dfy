/** The preview predicts the import; no interleaving of imports duplicates a fingerprint. */
module ImportProof {
  import opened Outcomes
  import opened Import

  // ----- What the loops keep -----

  lemma {:induction false} FreshNodesCounted(nodes: seq<ParsedNode>, seen: set<string>, existing: set<string>)
    ensures |FreshNodes(nodes, seen, existing)| == CountFresh(Scopes(nodes, seen, existing))
    decreases |nodes|
  {
    if nodes != [] {
      FreshNodesCounted(nodes[1..], seen + {nodes[0].fingerprint}, existing);
      assert Scopes(nodes, seen, existing)[1..] == Scopes(nodes[1..], seen + {nodes[0].fingerprint}, existing);
    }
  }

  ghost predicate DistinctFingerprints(nodes: seq<ParsedNode>) {
    forall i, j :: 0 <= i < j < |nodes| ==> nodes[i].fingerprint != nodes[j].fingerprint
  }

  // The nodes to create carry new fingerprints, each once: exactly those of the batch
  // that are not yet known.
  lemma {:induction false} FreshNodesAreNew(nodes: seq<ParsedNode>, seen: set<string>, existing: set<string>)
    ensures DistinctFingerprints(FreshNodes(nodes, seen, existing))
    ensures Fingerprints(FreshNodes(nodes, seen, existing)) == Fingerprints(nodes) - seen - existing
    decreases |nodes|
  {
    hide Fingerprints, DistinctFingerprints;
    if nodes == [] {
      NoFingerprints(seen, existing);
    } else {
      var f := nodes[0].fingerprint;
      var rest := FreshNodes(nodes[1..], seen + {f}, existing);
      FreshNodesAreNew(nodes[1..], seen + {f}, existing);
      FingerprintsCons(nodes);
      if ScopeOf(nodes[0], seen, existing).Fresh? {
        var kept := [nodes[0]] + rest;
        assert kept[1..] == rest;
        FingerprintsCons(kept);
        DistinctCons(kept);
      }
    }
  }

  lemma NoFingerprints(seen: set<string>, existing: set<string>)
    ensures DistinctFingerprints([]) && Fingerprints([]) == Fingerprints([]) - seen - existing == {}
  {
  }

  lemma FingerprintsCons(nodes: seq<ParsedNode>)
    requires nodes != []
    ensures Fingerprints(nodes) == {nodes[0].fingerprint} + Fingerprints(nodes[1..])
  {
  }

  lemma DistinctCons(nodes: seq<ParsedNode>)
    requires nodes != [] && DistinctFingerprints(nodes[1..])
    requires nodes[0].fingerprint !in Fingerprints(nodes[1..])
    ensures DistinctFingerprints(nodes)
  {
  }

  // What is left to create is nothing exactly when every fingerprint is known.
  lemma NothingFreshIff(nodes: seq<ParsedNode>, existing: set<string>)
    ensures FreshNodes(nodes, {}, existing) == [] <==> Fingerprints(nodes) <= existing
  {
    FreshNodesAreNew(nodes, {}, existing);
    var kept := FreshNodes(nodes, {}, existing);
    if kept != [] {
      assert kept[0].fingerprint in Fingerprints(kept);
    } else {
      assert Fingerprints(kept) == {};
      forall f | f in Fingerprints(nodes) ensures f in existing {
        assert f !in Fingerprints(nodes) - {} - existing;
      }
    }
  }

  lemma RowsFingerprints(config: SourceConfig, nodes: seq<ParsedNode>)
    ensures PoolFingerprints(ToRows(config, nodes)) == Fingerprints(nodes)
  {
  }

  lemma PoolAppend(pool: seq<Row>, rows: seq<Row>)
    ensures PoolFingerprints(pool + rows) == PoolFingerprints(pool) + PoolFingerprints(rows)
  {
  }

  lemma UniqueAppend(pool: seq<Row>, config: SourceConfig, nodes: seq<ParsedNode>)
    requires UniqueRows(pool) && DistinctFingerprints(nodes)
    requires Fingerprints(nodes) !! PoolFingerprints(pool)
    ensures UniqueRows(pool + ToRows(config, nodes))
  {
    var rows := ToRows(config, nodes);
    var all := pool + rows;
    forall i, j | 0 <= i < j < |all| ensures all[i].node.fingerprint != all[j].node.fingerprint {
      if i < |pool| <= j {
        assert all[i] in pool && all[i].node.fingerprint in PoolFingerprints(pool);
        assert nodes[j - |pool|] in nodes && all[j].node.fingerprint in Fingerprints(nodes);
      }
    }
  }

  lemma {:induction false} ChosenWithin(nodes: seq<ParsedNode>, selected: set<string>)
    ensures forall n :: n in Chosen(nodes, selected) <==> n in nodes && n.fingerprint in selected
    ensures |Chosen(nodes, selected)| <= |nodes|
  {
    if nodes != [] {
      ChosenWithin(nodes[1..], selected);
      assert nodes == [nodes[0]] + nodes[1..];
    }
  }

  lemma SelectedWithin(nodes: seq<ParsedNode>, fingerprints: seq<string>)
    ensures Fingerprints(Selected(nodes, fingerprints)) <= Fingerprints(nodes)
  {
    if NonBlank(fingerprints) != {} {
      ChosenWithin(nodes, NonBlank(fingerprints));
    }
  }

  // ----- An undisturbed import -----

  ghost predicate Importable(parse: string -> Option<seq<ParsedNode>>, configs: map<int, SourceConfig>, id: int,
                             fingerprints: seq<string>) {
    && id in configs
    && parse(configs[id].rawContent).Some?
    && Selected(parse(configs[id].rawContent).value, fingerprints) != []
  }

  // It succeeds whenever something is selected, accounts for every selected node, and
  // adds one row for each selected fingerprint the pool lacked.
  lemma ImportAccounts(parse: string -> Option<seq<ParsedNode>>, pool: seq<Row>, configs: map<int, SourceConfig>,
                       id: int, fingerprints: seq<string>)
    requires UniqueRows(pool) && Importable(parse, configs, id, fingerprints)
    ensures var selected := Selected(parse(configs[id].rawContent).value, fingerprints);
            var (result, pool') := ImportOutcome(parse, pool, configs, id, fingerprints);
            && result.Imported?
            && result.imported + result.skipped == |selected|
            && pool <= pool' && |pool'| == |pool| + result.imported
            && UniqueRows(pool')
            && PoolFingerprints(pool') == PoolFingerprints(pool) + Fingerprints(selected)
  {
    var nodes := parse(configs[id].rawContent).value;
    var selected := Selected(nodes, fingerprints);
    var toCreate := FreshNodes(selected, {}, Existing(pool, nodes));
    FreshNodesAreNew(selected, {}, Existing(pool, nodes));
    SelectedWithin(nodes, fingerprints);
    assert Fingerprints(toCreate) == Fingerprints(selected) - PoolFingerprints(pool);
    UniqueAppend(pool, configs[id], toCreate);
    RowsFingerprints(configs[id], toCreate);
    PoolAppend(pool, ToRows(configs[id], toCreate));
    hide FreshNodes, Selected, UniqueRows, Fingerprints, PoolFingerprints, Existing;
  }

  // Importing everything does what the preview on the same pool announced.
  lemma PreviewPredictsImport(parse: string -> Option<seq<ParsedNode>>, pool: seq<Row>,
                              configs: map<int, SourceConfig>, id: int, fingerprints: seq<string>)
    requires UniqueRows(pool) && Importable(parse, configs, id, fingerprints) && NonBlank(fingerprints) == {}
    ensures var nodes := parse(configs[id].rawContent).value;
            var preview := PreviewOf(nodes, Existing(pool, nodes));
            ImportOutcome(parse, pool, configs, id, fingerprints).0 == Imported(preview.importable, preview.duplicates)
  {
    var nodes := parse(configs[id].rawContent).value;
    ImportAccounts(parse, pool, configs, id, fingerprints);
    FreshNodesCounted(nodes, {}, Existing(pool, nodes));
  }

  // Importing the same selection again adds nothing.
  lemma ReimportAddsNothing(parse: string -> Option<seq<ParsedNode>>, pool: seq<Row>, configs: map<int, SourceConfig>,
                            configs': map<int, SourceConfig>, id: int, fingerprints: seq<string>)
    requires UniqueRows(pool) && Importable(parse, configs, id, fingerprints)
    requires id in configs' && configs'[id].rawContent == configs[id].rawContent
    ensures var pool' := ImportOutcome(parse, pool, configs, id, fingerprints).1;
            var selected := Selected(parse(configs[id].rawContent).value, fingerprints);
            ImportOutcome(parse, pool', configs', id, fingerprints) == (Imported(0, |selected|), pool')
  {
    var nodes := parse(configs[id].rawContent).value;
    var selected := Selected(nodes, fingerprints);
    var pool' := ImportOutcome(parse, pool, configs, id, fingerprints).1;
    ImportAccounts(parse, pool, configs, id, fingerprints);
    SelectedWithin(nodes, fingerprints);
    NothingFreshIff(selected, Existing(pool', nodes));
    assert pool' + ToRows(configs'[id], []) == pool';
    hide FreshNodes, Selected, UniqueRows, Fingerprints, PoolFingerprints;
  }

  // ----- Interleaved imports -----

  // The rows a session is going to commit, and how long the log was when it read the pool.
  datatype Plan = Plan(rows: seq<Row>, readAt: nat)

  datatype Entry = Added(session: nat, fingerprints: set<string>) | Deleted(fingerprint: string)

  // Each session reads the pool once, then commits what it planned; nodes are also deleted.
  datatype World = World(pool: seq<Row>, plans: map<nat, Plan>, log: seq<Entry>)

  datatype Action =
    | Read(session: nat, config: SourceConfig, nodes: seq<ParsedNode>, fingerprints: seq<string>)
    | Commit(session: nat)
    | Delete(fingerprint: string)

  function OtherRows(pool: seq<Row>, fingerprint: string): seq<Row> {
    if pool == [] then []
    else if pool[0].node.fingerprint != fingerprint then [pool[0]] + OtherRows(pool[1..], fingerprint)
    else OtherRows(pool[1..], fingerprint)
  }

  function Planned(pool: seq<Row>, config: SourceConfig, nodes: seq<ParsedNode>, fingerprints: seq<string>): seq<Row> {
    ToRows(config, FreshNodes(Selected(nodes, fingerprints), {}, Existing(pool, nodes)))
  }

  // The unique index refuses the whole transaction.
  predicate Refused(w: World, session: nat) {
    session in w.plans && !UniqueRows(w.pool + w.plans[session].rows)
  }

  function Act(w: World, a: Action): World {
    match a
    case Read(session, config, nodes, fingerprints) =>
      w.(plans := w.plans[session := Plan(Planned(w.pool, config, nodes, fingerprints), |w.log|)])
    case Commit(session) =>
      if session !in w.plans then w
      else if Refused(w, session) then w.(plans := w.plans - {session})
      else
        var rows := w.plans[session].rows;
        World(w.pool + rows, w.plans - {session}, w.log + [Added(session, PoolFingerprints(rows))])
    case Delete(fingerprint) =>
      w.(pool := OtherRows(w.pool, fingerprint), log := w.log + [Deleted(fingerprint)])
  }

  function Run(w: World, actions: seq<Action>): World {
    if actions == [] then w else Act(Run(w, actions[..|actions| - 1]), actions[|actions| - 1])
  }

  // ----- Which commits are refused -----

  predicate Touches(e: Entry, fingerprint: string) {
    match e case Added(_, fingerprints) => fingerprint in fingerprints case Deleted(f) => f == fingerprint
  }

  /** Position of the latest entry about a fingerprint, or -1. */
  function Latest(log: seq<Entry>, fingerprint: string): (k: int)
    ensures -1 <= k < |log|
    ensures k >= 0 ==> Touches(log[k], fingerprint)
  {
    if log == [] then -1
    else if Touches(log[|log| - 1], fingerprint) then |log| - 1
    else Latest(log[..|log| - 1], fingerprint)
  }

  lemma LatestSnoc(log: seq<Entry>, e: Entry, fingerprint: string)
    ensures Latest(log + [e], fingerprint) == if Touches(e, fingerprint) then |log| else Latest(log, fingerprint)
  {
    assert (log + [e])[..|log|] == log;
  }

  // The latest about the fingerprint is that another session committed it after the read.
  ghost predicate Forestalled(w: World, session: nat, fingerprint: string)
    requires session in w.plans
  {
    var k := Latest(w.log, fingerprint);
    k >= w.plans[session].readAt && w.log[k].Added? && w.log[k].session != session
  }

  ghost predicate Logged(w: World) {
    forall f :: Latest(w.log, f) >= 0 ==> (f in PoolFingerprints(w.pool) <==> w.log[Latest(w.log, f)].Added?)
  }

  // What a pending plan carries and the pool holds came in after the read, through others.
  ghost predicate PlanFits(w: World, session: nat, plan: Plan) {
    && UniqueRows(plan.rows)
    && plan.readAt <= |w.log|
    && (forall f :: f in PoolFingerprints(plan.rows) && f in PoolFingerprints(w.pool) ==> Latest(w.log, f) >= plan.readAt)
    && forall k :: plan.readAt <= k < |w.log| && w.log[k].Added? ==> w.log[k].session != session
  }

  ghost predicate Tracked(w: World) {
    && UniqueRows(w.pool)
    && Logged(w)
    && forall s :: s in w.plans ==> PlanFits(w, s, w.plans[s])
  }

  lemma {:induction false} OtherRowsMembers(pool: seq<Row>, fingerprint: string)
    ensures forall r :: r in OtherRows(pool, fingerprint) <==> r in pool && r.node.fingerprint != fingerprint
  {
    if pool != [] {
      OtherRowsMembers(pool[1..], fingerprint);
      assert pool == [pool[0]] + pool[1..];
    }
  }

  lemma {:induction false} OtherRowsUnique(pool: seq<Row>, fingerprint: string)
    requires UniqueRows(pool)
    ensures UniqueRows(OtherRows(pool, fingerprint))
  {
    if pool != [] {
      OtherRowsUnique(pool[1..], fingerprint);
      OtherRowsMembers(pool[1..], fingerprint);
      var rest := OtherRows(pool[1..], fingerprint);
      hide OtherRows;
      forall j | 0 <= j < |rest| ensures rest[j].node.fingerprint != pool[0].node.fingerprint {
        assert rest[j] in pool[1..];
      }
    }
  }

  lemma OtherRowsKeep(pool: seq<Row>, fingerprint: string)
    requires UniqueRows(pool)
    ensures UniqueRows(OtherRows(pool, fingerprint))
    ensures PoolFingerprints(OtherRows(pool, fingerprint)) == PoolFingerprints(pool) - {fingerprint}
  {
    OtherRowsUnique(pool, fingerprint);
    OtherRowsMembers(pool, fingerprint);
    hide OtherRows, UniqueRows;
  }

  // A pool with more rows is unique exactly when the new ones are new.
  lemma UniqueTogetherIff(pool: seq<Row>, rows: seq<Row>)
    requires UniqueRows(pool) && UniqueRows(rows)
    ensures UniqueRows(pool + rows) <==> PoolFingerprints(pool) !! PoolFingerprints(rows)
  {
    var all := pool + rows;
    if f :| f in PoolFingerprints(pool) && f in PoolFingerprints(rows) {
      var a :| a in pool && a.node.fingerprint == f;
      var b :| b in rows && b.node.fingerprint == f;
      var i :| 0 <= i < |pool| && pool[i] == a;
      var j :| 0 <= j < |rows| && rows[j] == b;
      assert all[i] == a && all[|pool| + j] == b;
    } else {
      forall i, j | 0 <= i < j < |all| ensures all[i].node.fingerprint != all[j].node.fingerprint {
        if i < |pool| <= j {
          assert all[i] in pool && all[i].node.fingerprint in PoolFingerprints(pool);
          assert rows[j - |pool|] in rows && all[j].node.fingerprint in PoolFingerprints(rows);
        }
      }
    }
  }

  /** A commit with rows is refused exactly when one of its fingerprints was committed by
      another session after its own read, and not deleted since. */
  lemma RefusedIffForestalled(w: World, session: nat)
    requires Tracked(w) && session in w.plans
    ensures Refused(w, session) <==>
              exists f :: f in PoolFingerprints(w.plans[session].rows) && Forestalled(w, session, f)
  {
    hide PoolFingerprints, UniqueRows, Latest;
    var rows := w.plans[session].rows;
    UniqueTogetherIff(w.pool, rows);
    assert PlanFits(w, session, w.plans[session]);
    forall f | f in PoolFingerprints(rows) ensures f in PoolFingerprints(w.pool) <==> Forestalled(w, session, f) {
    }
  }

  lemma PlannedFits(w: World, session: nat, config: SourceConfig, nodes: seq<ParsedNode>, fingerprints: seq<string>)
    ensures PlanFits(w, session, Plan(Planned(w.pool, config, nodes, fingerprints), |w.log|))
  {
    var kept := FreshNodes(Selected(nodes, fingerprints), {}, Existing(w.pool, nodes));
    FreshNodesAreNew(Selected(nodes, fingerprints), {}, Existing(w.pool, nodes));
    SelectedWithin(nodes, fingerprints);
    RowsFingerprints(config, kept);
    hide FreshNodes, Selected, Latest;
  }

  lemma PlanFitsLater(w: World, w': World, session: nat, plan: Plan)
    requires PlanFits(w, session, plan) && |w'.log| == |w.log| + 1 && w'.log[..|w.log|] == w.log
    requires var e := w'.log[|w.log|];
             && (e.Added? ==> e.session != session && PoolFingerprints(w'.pool) == PoolFingerprints(w.pool) + e.fingerprints)
             && (e.Deleted? ==> PoolFingerprints(w'.pool) == PoolFingerprints(w.pool) - {e.fingerprint})
    ensures PlanFits(w', session, plan)
  {
    hide PoolFingerprints, UniqueRows, Latest;
    var e := w'.log[|w.log|];
    assert w'.log == w.log + [e];
    forall f | f in PoolFingerprints(plan.rows) && f in PoolFingerprints(w'.pool)
      ensures Latest(w'.log, f) >= plan.readAt
    {
      LatestSnoc(w.log, e, f);
    }
  }

  lemma LoggedLater(w: World, w': World)
    requires Logged(w) && |w'.log| == |w.log| + 1 && w'.log[..|w.log|] == w.log
    requires var e := w'.log[|w.log|];
             && (e.Added? ==> PoolFingerprints(w'.pool) == PoolFingerprints(w.pool) + e.fingerprints)
             && (e.Deleted? ==> PoolFingerprints(w'.pool) == PoolFingerprints(w.pool) - {e.fingerprint})
    ensures Logged(w')
  {
    hide PoolFingerprints, Latest;
    var e := w'.log[|w.log|];
    assert w'.log == w.log + [e];
    forall f | Latest(w'.log, f) >= 0
      ensures f in PoolFingerprints(w'.pool) <==> w'.log[Latest(w'.log, f)].Added?
    {
      LatestSnoc(w.log, e, f);
    }
  }

  lemma StepKeepsTracked(w: World, a: Action)
    requires Tracked(w)
    ensures Tracked(Act(w, a))
  {
    hide PoolFingerprints, UniqueRows, Logged, PlanFits, Planned, OtherRows;
    var w' := Act(w, a);
    match a
    case Read(session, config, nodes, fingerprints) =>
      SameLog(w, w');
      PlannedFits(w, session, config, nodes, fingerprints);
    case Commit(session) =>
      if session in w.plans {
        if Refused(w, session) {
          SameLog(w, w');
        } else {
          PoolAppend(w.pool, w.plans[session].rows);
          LoggedLater(w, w');
          forall s | s in w'.plans ensures PlanFits(w', s, w'.plans[s]) {
            PlanFitsLater(w, w', s, w.plans[s]);
          }
        }
      }
    case Delete(fingerprint) =>
      OtherRowsKeep(w.pool, fingerprint);
      LoggedLater(w, w');
      forall s | s in w'.plans ensures PlanFits(w', s, w'.plans[s]) {
        PlanFitsLater(w, w', s, w.plans[s]);
      }
  }

  lemma SameLog(w: World, w': World)
    requires w'.pool == w.pool && w'.log == w.log
    ensures Logged(w) ==> Logged(w')
    ensures forall s, plan :: PlanFits(w, s, plan) ==> PlanFits(w', s, plan)
  {
  }

  // A pool nobody is importing into.
  ghost predicate Idle(w: World) {
    UniqueRows(w.pool) && w.plans == map[] && w.log == []
  }

  /** Under any interleaving the pool never holds a fingerprint twice, a commit's rows
      arrive all together or not at all, and which commits are refused is exactly said. */
  lemma {:induction false} PoolStaysUnique(w: World, actions: seq<Action>)
    requires Idle(w)
    ensures Tracked(Run(w, actions))
    ensures UniqueRows(Run(w, actions).pool)
    ensures var now := Run(w, actions);
            forall s :: s in now.plans ==>
              var after := Act(now, Commit(s)).pool;
              after == if exists f :: f in PoolFingerprints(now.plans[s].rows) && Forestalled(now, s, f)
                       then now.pool else now.pool + now.plans[s].rows
    decreases |actions|
  {
    if actions == [] {
      IdleTracked(w);
    } else {
      hide Tracked, Act, Forestalled, Idle;
      PoolStaysUnique(w, actions[..|actions| - 1]);
      StepKeepsTracked(Run(w, actions[..|actions| - 1]), actions[|actions| - 1]);
    }
    CommitsDecided(Run(w, actions));
    hide Tracked, Forestalled, Act;
  }

  lemma IdleTracked(w: World)
    requires Idle(w)
    ensures Tracked(w)
  {
  }

  lemma CommitsDecided(w: World)
    requires Tracked(w)
    ensures UniqueRows(w.pool)
    ensures forall s :: s in w.plans ==>
              var after := Act(w, Commit(s)).pool;
              after == if exists f :: f in PoolFingerprints(w.plans[s].rows) && Forestalled(w, s, f)
                       then w.pool else w.pool + w.plans[s].rows
  {
    forall s | s in w.plans
      ensures Refused(w, s) <==> exists f :: f in PoolFingerprints(w.plans[s].rows) && Forestalled(w, s, f)
    {
      RefusedIffForestalled(w, s);
    }
    hide Forestalled, PoolFingerprints, UniqueRows;
  }

  // In particular a commit right after its own read is never refused.
  lemma UndisturbedCommitSucceeds(w: World, session: nat, config: SourceConfig, nodes: seq<ParsedNode>,
                                  fingerprints: seq<string>)
    requires Tracked(w)
    ensures var planned := Act(w, Read(session, config, nodes, fingerprints));
            Act(planned, Commit(session)).pool == w.pool + Planned(w.pool, config, nodes, fingerprints)
  {
    var planned := Act(w, Read(session, config, nodes, fingerprints));
    StepKeepsTracked(w, Read(session, config, nodes, fingerprints));
    RefusedIffForestalled(planned, session);
    hide Tracked, UniqueRows, PoolFingerprints, Planned;
  }
}
