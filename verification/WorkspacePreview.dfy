/** What a saved profile previews as, after any run of the workspace. */
module WorkspacePreview {
  import opened GoText
  import opened Sequences
  import opened Orders
  import opened MihomoRenderer
  import opened Workspace
  import opened WorkspaceProof
  import opened WorkspaceRuns

  // ----- The latest save of a profile, and the nodes deleted since -----

  datatype Last = Untouched | Gone | Held(payload: Payload, dropped: set<int>)

  ghost function Next(w: World, last: Last, e: Event, id: int): Last {
    match e
    case Commit(session) =>
      if Ready(w, session) && WrittenId(w, w.plans[session]) == id then Held(AsWritten(w, w.plans[session]), {}) else last
    case DeleteNode(node) =>
      if last.Held? && node > 0 && Has(w.db.nodes, node) then Held(last.payload, last.dropped + {node}) else last
    case DeleteProfile(profile) => if profile == id && id > 0 then Gone else last
    case _ => last
  }

  ghost function LastOf(env: Env, w: World, events: seq<Event>, id: int): Last {
    if events == [] then Untouched
    else
      var earlier := events[..|events| - 1];
      Next(Run(env, w, earlier), LastOf(env, w, earlier, id), events[|events| - 1], id)
  }

  ghost predicate NeverBack(w: World, dropped: set<int>) {
    forall n :: n in dropped ==> n < w.nextNode && !Has(w.db.nodes, n)
  }

  ghost predicate Told(env: Env, w: World, id: int, last: Last) {
    match last
    case Untouched => true
    case Gone => id !in w.db.profiles
    case Held(p, dropped) =>
      Normalize(p).Ok? && Holds(env, w.db, id, Normalize(p).value, dropped) && NeverBack(w, dropped)
  }

  // ----- Deleting a node keeps the other relations, in order -----

  lemma {:induction false} MineWithoutNode(relations: seq<Relation>, node: int, id: int)
    ensures Mine(WithoutNode(relations, node), id) == WithoutNode(Mine(relations, id), node)
  {
    if relations != [] {
      MineWithoutNode(relations[1..], node, id);
      if relations[0].nodeId != node {
        assert WithoutNode(relations, node)[1..] == WithoutNode(relations[1..], node);
      }
      if relations[0].profileId == id {
        assert Mine(relations, id)[1..] == Mine(relations[1..], id);
      }
    }
  }

  lemma {:induction false} IdsWithoutNode(relations: seq<Relation>, node: int)
    ensures NodeIds(WithoutNode(relations, node)) == Without(NodeIds(relations), {node})
  {
    if relations != [] {
      IdsWithoutNode(relations[1..], node);
      assert NodeIds(relations)[1..] == NodeIds(relations[1..]);
      if relations[0].nodeId != node {
        assert WithoutNode(relations, node)[1..] == WithoutNode(relations[1..], node);
      }
    }
  }

  lemma {:induction false} WithoutNodeMembers(relations: seq<Relation>, node: int)
    ensures forall r :: r in WithoutNode(relations, node) ==> r in relations
  {
    if relations != [] {
      WithoutNodeMembers(relations[1..], node);
    }
  }

  lemma {:induction false} WithoutNodeSorted(relations: seq<Relation>, node: int)
    requires SortedBy(CompareRelations, relations)
    ensures SortedBy(CompareRelations, WithoutNode(relations, node))
  {
    if relations != [] {
      WithoutNodeSorted(relations[1..], node);
      WithoutNodeMembers(relations[1..], node);
      var rest := WithoutNode(relations[1..], node);
      hide CompareRelations;
      forall j | 0 <= j < |rest| ensures CompareRelations(relations[0], rest[j]) <= 0 {
        assert rest[j] in relations[1..];
      }
    }
  }

  lemma {:induction false} WithoutTwice(ids: seq<int>, a: set<int>, b: set<int>)
    ensures Without(Without(ids, a), b) == Without(ids, a + b)
  {
    if ids != [] {
      WithoutTwice(ids[1..], a, b);
      if ids[0] !in a {
        assert Without(ids, a)[1..] == Without(ids[1..], a);
      }
    }
  }

  lemma DeleteKeepsRest(env: Env, db: Database, node: int, id: int, q: Payload, dropped: set<int>)
    requires Holds(env, db, id, q, dropped) && node > 0 && Has(db.nodes, node)
    ensures Holds(env, NodeDeleted(db, node), id, q, dropped + {node})
  {
    hide Mine, WithoutNode, NodeIds, Without, SortedBy, CompareRelations, OtherNodes;
    MineWithoutNode(db.relations, node, id);
    IdsWithoutNode(Mine(db.relations, id), node);
    WithoutNodeSorted(Mine(db.relations, id), node);
    WithoutTwice(q.nodeIds, dropped, {node});
  }

  lemma ProfileDeletedElsewhere(env: Env, db: Database, profile: int, id: int, q: Payload, dropped: set<int>)
    requires Holds(env, db, id, q, dropped) && profile != id
    ensures Holds(env, ProfileDeleted(db, profile), id, q, dropped)
  {
    hide Mine, Others, NodeIds, Without, SortedBy;
    MineOfOthers(db.relations, profile, id);
  }

  lemma AnyNodesHold(env: Env, db: Database, nodes: seq<ProxyNode>, id: int, q: Payload, dropped: set<int>)
    requires Holds(env, db, id, q, dropped)
    ensures Holds(env, db.(nodes := nodes), id, q, dropped)
  {
    hide Mine, NodeIds, Without, SortedBy;
  }

  lemma CommitTells(env: Env, w: World, session: nat, id: int, last: Last)
    requires Ready(w, session) && Told(env, w, id, last)
    ensures Told(env, React(env, w, Commit(session)), id, Next(w, last, Commit(session), id))
  {
    hide Normalize, Stored, AsWritten, Holds, React;
    CommitShape(env, w, session);
    var plan := w.plans[session];
    var q := Normalize(AsWritten(w, plan)).value;
    if WrittenId(w, plan) == id {
      StoredHolds(env, w.db, id, q);
    } else if last.Held? {
      StoredElsewhere(env, w.db, WrittenId(w, plan), q, id, Normalize(last.payload).value, last.dropped);
    }
  }

  lemma NodeStepTells(env: Env, w: World, e: Event, id: int, last: Last)
    requires Told(env, w, id, last) && KeysInOrder(w)
    requires e.AddNode? || e.UpdateNode? || e.DeleteNode?
    ensures Told(env, React(env, w, e), id, Next(w, last, e, id))
  {
    hide Normalize, Holds, KeysAscend, Replaced, OtherNodes, WithoutNode;
    if last.Held? {
      var q, w' := Normalize(last.payload).value, React(env, w, e);
      match e
      case AddNode(_, _) => AnyNodesHold(env, w.db, w'.db.nodes, id, q, last.dropped);
      case UpdateNode(node) =>
        AnyNodesHold(env, w.db, w'.db.nodes, id, q, last.dropped);
        forall n | n in last.dropped ensures !Has(w'.db.nodes, n) {
          ReplacedMembers(w.db.nodes, node, n);
        }
      case DeleteNode(node) =>
        if node > 0 && Has(w.db.nodes, node) {
          DeleteKeepsRest(env, w.db, node, id, q, last.dropped);
        }
    }
  }

  lemma StepTells(env: Env, w: World, e: Event, id: int, last: Last)
    requires Told(env, w, id, last) && KeysInOrder(w)
    ensures Told(env, React(env, w, e), id, Next(w, last, e, id))
  {
    hide Normalize, Holds, NameInUse, PortInUse, KeysInOrder, Ready;
    match e
    case Commit(session) =>
      if Ready(w, session) {
        CommitTells(env, w, session, id, last);
      }
    case AddNode(_, _) => NodeStepTells(env, w, e, id, last);
    case UpdateNode(_) => NodeStepTells(env, w, e, id, last);
    case DeleteNode(_) => NodeStepTells(env, w, e, id, last);
    case DeleteProfile(profile) =>
      if last.Held? && profile != id {
        ProfileDeletedElsewhere(env, w.db, profile, id, Normalize(last.payload).value, last.dropped);
      }
    case _ =>
  }

  lemma {:induction false} RunTells(env: Env, w: World, events: seq<Event>, id: int)
    requires Idle(w)
    ensures Told(env, Run(env, w, events), id, LastOf(env, w, events, id))
    decreases |events|
  {
    hide Told, React, Next, KeysInOrder;
    if events == [] {
      assert Told(env, w, id, Untouched) by { UntouchedTold(env, w, id); }
    } else {
      var earlier := events[..|events| - 1];
      RunTells(env, w, earlier, id);
      RunKeepsKeys(env, w, earlier);
      StepTells(env, Run(env, w, earlier), events[|events| - 1], id, LastOf(env, w, earlier, id));
    }
  }

  lemma UntouchedTold(env: Env, w: World, id: int)
    ensures Told(env, w, id, Untouched)
  {
  }

  // ----- Choosing fewer nodes -----

  lemma {:induction false} PositiveWithout(ids: seq<int>, gone: set<int>)
    ensures PositiveIds(Without(ids, gone)) == Without(PositiveIds(ids), gone)
  {
    if ids != [] {
      PositiveWithout(ids[1..], gone);
      if ids[0] !in gone {
        assert Without(ids, gone)[1..] == Without(ids[1..], gone);
      }
      if ids[0] > 0 {
        assert PositiveIds(ids)[1..] == PositiveIds(ids[1..]);
      }
    }
  }

  lemma WithoutCons(x: int, rest: seq<int>, gone: set<int>)
    ensures Without([x] + rest, gone) == if x in gone then Without(rest, gone) else [x] + Without(rest, gone)
  {
    assert ([x] + rest)[1..] == rest;
  }

  ghost predicate AgreeOutside(gone: set<int>, a: set<int>, b: set<int>) {
    forall x :: x !in gone ==> (x in a <==> x in b)
  }

  // Dropping before or after removing repetitions is the same.
  lemma {:induction false} UnseenWithout(ids: seq<int>, gone: set<int>, a: set<int>, b: set<int>)
    requires AgreeOutside(gone, a, b)
    ensures Unseen(Without(ids, gone), a) == Without(Unseen(ids, b), gone)
  {
    if ids != [] {
      hide Unseen, Without;
      var x, rest := ids[0], ids[1..];
      assert [x] + rest == ids;
      WithoutCons(x, rest, gone);
      UnseenStep(x, rest, b);
      UnseenStep(x, Without(rest, gone), a);
      WithoutCons(x, Unseen(rest, b + {x}), gone);
      UnseenWithout(rest, gone, if x in gone then a else a + {x}, b + {x});
      UnseenWithout(rest, gone, a, b);
    } else {
      NothingUnseen<int>(a);
      NothingUnseen<int>(b);
    }
  }

  lemma DistinctWithout(ids: seq<int>, gone: set<int>)
    ensures DistinctIds(Without(ids, gone)) == Without(DistinctIds(ids), gone)
  {
    hide PositiveIds, Unseen, Without;
    PositiveWithout(ids, gone);
    UnseenWithout(PositiveIds(ids), gone, {}, {});
  }

  // An accepted payload with other nodes is accepted unless no node is left.
  lemma NormalizeOtherNodes(p: Payload, ids: seq<int>)
    requires Normalize(p).Ok?
    ensures Normalize(p.(nodeIds := ids)) ==
              if DistinctIds(ids) == [] then Failed(NoNodesChosen)
              else Ok(Normalize(p).value.(nodeIds := DistinctIds(ids)))
  {
    hide NormalizeSettings, TrimSpace, PortProblem, Unseen, PositiveIds;
    if ids == [] {
      NoIds();
    }
  }

  lemma NoIds()
    ensures DistinctIds([]) == []
  {
  }

  lemma HeldPreviews(env: Env, db: Database, id: int, p: Payload, gone: set<int>)
    requires SettingsRoundTrip(env) && Normalize(p).Ok? && Holds(env, db, id, Normalize(p).value, gone)
    ensures PreviewSaved(env, db, id) == Preview(env, db, p.(nodeIds := Without(p.nodeIds, gone)))
  {
    hide Normalize, Holds, ViewOf, Resolve, RenderFragment, DistinctIds, Without;
    var q := Normalize(p).value;
    var kept := Without(q.nodeIds, gone);
    HeldPayloadReadsBack(env, db, id, q, gone);
    NormalizeIsIdempotent(p);
    ChosenIds(p);
    DistinctWithout(p.nodeIds, gone);
    DistinctWithout(q.nodeIds, gone);
    ChosenIds(q);
    NormalizeOtherNodes(p, Without(p.nodeIds, gone));
    NormalizeOtherNodes(q, kept);
  }

  lemma ChosenIds(p: Payload)
    requires Normalize(p).Ok?
    ensures Normalize(p).value.nodeIds == DistinctIds(p.nodeIds)
  {
    hide NormalizeSettings, TrimSpace, PortProblem, DistinctIds;
  }

  // ----- Same preview or not -----

  lemma ResolvesIff(env: Env, db: Database, p: Payload)
    requires Normalize(p).Ok?
    ensures Preview(env, db, p) == Failed(NodesMissing) <==>
              exists id :: id in DistinctIds(p.nodeIds) && !Has(db.nodes, id)
  {
    hide NormalizeSettings, TrimSpace, PortProblem, RenderFragment, DistinctIds, Has;
    ChosenIds(p);
    DistinctIdsMembers(p.nodeIds);
    var ids := DistinctIds(p.nodeIds);
    if id :| id in ids && !Has(db.nodes, id) {
      var i :| 0 <= i < |ids| && ids[i] == id;
      assert !Resolvable(db.nodes, ids);
    }
  }

  // With none of its ids dropped a payload previews as it is; otherwise only when both
  // previews fail over an id that is not in the pool.
  lemma SamePreviewIff(env: Env, db: Database, p: Payload, gone: set<int>)
    requires Normalize(p).Ok? && forall n :: n in gone ==> !Has(db.nodes, n)
    ensures Preview(env, db, p.(nodeIds := Without(p.nodeIds, gone))) == Preview(env, db, p) <==>
              || (forall id :: id in DistinctIds(p.nodeIds) ==> id !in gone)
              || (exists id :: id in Without(DistinctIds(p.nodeIds), gone) && !Has(db.nodes, id))
  {
    hide Normalize, Preview, DistinctIds, Without, Has;
    var p' := p.(nodeIds := Without(p.nodeIds, gone));
    DistinctWithout(p.nodeIds, gone);
    NormalizeOtherNodes(p, p'.nodeIds);
    ResolvesIff(env, db, p);
    if id :| id in DistinctIds(p.nodeIds) && id in gone {
      if Normalize(p').Ok? {
        ResolvesIff(env, db, p');
      } else {
        RejectedPreview(env, db, p');
      }
    } else {
      WithoutNone(DistinctIds(p.nodeIds), gone);
      SameNormalFormSamePreview(env, db, p, p');
    }
  }

  lemma RejectedPreview(env: Env, db: Database, p: Payload)
    requires Normalize(p) == Failed(NoNodesChosen)
    ensures Preview(env, db, p) == Failed(NoNodesChosen)
  {
    hide Normalize;
  }

  lemma {:induction false} WithoutNone(ids: seq<int>, gone: set<int>)
    requires forall id :: id in ids ==> id !in gone
    ensures Without(ids, gone) == ids
  {
    if ids != [] {
      assert ids[0] in ids && forall id :: id in ids[1..] ==> id in ids;
      WithoutNone(ids[1..], gone);
      WithoutCons(ids[0], ids[1..], gone);
      assert [ids[0]] + ids[1..] == ids && ids[0] !in gone;
    }
  }

  lemma SameNormalFormSamePreview(env: Env, db: Database, p: Payload, p': Payload)
    requires Normalize(p).Ok? && p' == p.(nodeIds := p'.nodeIds)
    requires DistinctIds(p'.nodeIds) == DistinctIds(p.nodeIds)
    ensures Preview(env, db, p') == Preview(env, db, p)
  {
    hide Normalize, Resolve, RenderFragment, DistinctIds;
    NormalizeOtherNodes(p, p'.nodeIds);
    NormalizeOtherNodes(p, p.nodeIds);
    assert p.(nodeIds := p.nodeIds) == p;
  }

  // ----- Main result -----

  /** After any run a deleted profile has no preview, and a saved one previews as the
      payload last written for it without the nodes deleted since: as that payload itself
      exactly when none of its nodes was deleted, or one of the others is unknown, which
      fails both. */
  lemma SavedPreviewsAsSent(env: Env, w: World, events: seq<Event>, id: int)
    requires SettingsRoundTrip(env) && Idle(w)
    ensures var now := Run(env, w, events).db;
            match LastOf(env, w, events, id)
            case Untouched => true
            case Gone => PreviewSaved(env, now, id) == Failed(NoSuchProfile)
            case Held(p, dropped) =>
              && PreviewSaved(env, now, id) == Preview(env, now, p.(nodeIds := Without(p.nodeIds, dropped)))
              && (PreviewSaved(env, now, id) == Preview(env, now, p) <==>
                    || (forall n :: n in DistinctIds(p.nodeIds) ==> n !in dropped)
                    || (exists n :: n in Without(DistinctIds(p.nodeIds), dropped) && !Has(now.nodes, n)))
  {
    hide Run, LastOf, Normalize, Holds, Preview, Idle, DistinctIds, Without, Has;
    var now, last := Run(env, w, events).db, LastOf(env, w, events, id);
    RunTells(env, w, events, id);
    if last.Held? {
      HeldPreviews(env, now, id, last.payload, last.dropped);
      hide PreviewSaved;
      SamePreviewIff(env, now, last.payload, last.dropped);
    }
  }
}
