/** What a payload is normalised to, why one is refused, and what saving and deleting touch. */
module WorkspaceForm {
  import opened Outcomes
  import opened GoText
  import opened Sequences
  import opened Orders
  import opened MihomoRenderer
  import opened Workspace
  import opened WorkspaceProof

  // ----- The normal form, field by field -----

  function OrElse(text: string, fallback: string): string {
    if TrimSpace(text) == "" then fallback else TrimSpace(text)
  }

  // The chosen ids are the positive ones at their first occurrence.
  predicate FirstPositive(ids: seq<int>, i: nat)
    requires i < |ids|
  {
    ids[i] > 0 && forall j :: 0 <= j < i ==> ids[j] != ids[i]
  }

  lemma UnseenCons(ids: seq<int>, seen: set<int>)
    requires ids != []
    ensures Unseen(PositiveIds(ids), seen) ==
              if ids[0] > 0 && ids[0] !in seen then [ids[0]] + Unseen(PositiveIds(ids[1..]), seen + {ids[0]})
              else Unseen(PositiveIds(ids[1..]), seen)
  {
    hide Unseen;
    UnseenStep(ids[0], PositiveIds(ids[1..]), seen);
  }

  predicate Kept(ids: seq<int>, seen: set<int>, i: nat)
    requires i < |ids|
  {
    FirstPositive(ids, i) && ids[i] !in seen
  }

  lemma KeptLater(ids: seq<int>, seen: set<int>, i: nat)
    requires 0 < i < |ids|
    ensures Kept(ids, seen, i) <==>
              Kept(ids[1..], if ids[0] > 0 && ids[0] !in seen then seen + {ids[0]} else seen, i - 1)
  {
    assert forall j :: 0 < j < |ids| ==> ids[j] == ids[1..][j - 1];
    if FirstPositive(ids, i) {
      forall j | 0 <= j < i - 1 ensures ids[1..][j] != ids[i] {
        assert ids[j + 1] != ids[i];
      }
    }
  }

  lemma {:induction false} UnseenAre(ids: seq<int>, seen: set<int>) returns (at: seq<nat>)
    ensures Picks(Unseen(PositiveIds(ids), seen), ids, at)
    ensures forall i :: 0 <= i < |ids| ==> (i in at <==> Kept(ids, seen, i))
    decreases |ids|
  {
    at := [];
    if ids != [] {
      var x, tail := ids[0], ids[1..];
      var taken := x > 0 && x !in seen;
      var next := if taken then seen + {x} else seen;
      UnseenCons(ids, seen);
      var rest := UnseenAre(tail, next);
      PicksCons(Unseen(PositiveIds(tail), next), tail, rest, x, taken);
      assert [x] + tail == ids;
      assert Kept(ids, seen, 0) <==> taken;
      hide Picks, Kept, Unseen, PositiveIds, Behind;
      at := Behind(rest, taken);
      forall i | 0 <= i < |ids| ensures i in at <==> Kept(ids, seen, i) {
        if i > 0 {
          KeptLater(ids, seen, i);
        }
      }
    }
  }

  predicate Probing(t: string) {
    t == "url-test" || t == "fallback" || t == "load-balance"
  }

  // The settings a profile gets: the defaults for none at all, else its own, mended.
  predicate Mended(s: ProxySettings, q: ProxySettings) {
    if s == ProxySettings("", "", 0, "", false, false, false, false, "", "") then
      q == ProxySettings("select", "https://cp.cloudflare.com/generate_204", 300, "consistent-hashing",
                         false, false, true, false, "", "")
    else
      var t := TrimSpace(s.strategyType);
      q == ProxySettings(
        if Probing(t) then t else "select",
        OrElse(s.testUrl, "https://cp.cloudflare.com/generate_204"),
        if s.testIntervalSeconds > 0 then s.testIntervalSeconds else 300,
        if TrimSpace(s.loadBalanceStrategy) == "round-robin" then "round-robin" else "consistent-hashing",
        s.loadBalanceLazy, s.loadBalanceDisableUdp, s.udpEnabled, s.authEnabled,
        if s.authEnabled then TrimSpace(s.authUsername) else "",
        if s.authEnabled then TrimSpace(s.authPassword) else "")
  }

  lemma SettingsMended(s: ProxySettings)
    ensures Mended(s, NormalizeSettings(s))
  {
    hide TrimSpace;
    DefaultsTrim();
  }

  lemma DefaultsTrim()
    ensures TrimSpace("select") == "select" && TrimSpace("") == ""
  {
  }

  /** Every field of the normal form. */
  lemma NormalFields(p: Payload) returns (at: seq<nat>)
    requires Normalize(p).Ok?
    ensures var q := Normalize(p).value;
            && q.name == OrElse(p.name, "POOLX") && q.listenHost == OrElse(p.listenHost, "127.0.0.1")
            && q.mixedPort == p.mixedPort
            && (p.mixedPort > 0 ==> q.socksPort == 0 && q.httpPort == 0)
            && (p.mixedPort <= 0 ==> q.socksPort == p.socksPort && q.httpPort == p.httpPort)
            && Mended(p.proxySettings, q.proxySettings)
            && q.includeInRuntime == p.includeInRuntime
            && Picks(q.nodeIds, p.nodeIds, at)
            && forall i :: 0 <= i < |p.nodeIds| ==> (i in at <==> FirstPositive(p.nodeIds, i))
  {
    hide TrimSpace, NormalizeSettings, Mended, Picks, Unseen, PositiveIds;
    SettingsMended(p.proxySettings);
    at := UnseenAre(p.nodeIds, {});
    assert forall i :: 0 <= i < |p.nodeIds| ==> (Kept(p.nodeIds, {}, i) <==> FirstPositive(p.nodeIds, i));
  }

  // ----- Why a payload is refused -----

  predicate Negative(p: Payload) {
    p.mixedPort < 0 || p.socksPort < 0 || p.httpPort < 0
  }

  predicate LacksCredentials(p: Payload) {
    p.proxySettings.authEnabled && (Blank(p.proxySettings.authUsername) || Blank(p.proxySettings.authPassword))
  }

  predicate NothingPositive(ids: seq<int>) {
    forall id | id in ids :: id <= 0
  }

  predicate NoPortAtAll(p: Payload) {
    p.mixedPort == 0 && p.socksPort == 0 && p.httpPort == 0
  }

  // What is wrong with the ports alone, looked at in the order mixed, SOCKS, HTTP.
  predicate PortsWrong(p: Payload, problem: Problem) {
    match problem
    case InvalidPort(kind) =>
      || (kind == "Mixed" && p.mixedPort > 65535)
      || (kind == "SOCKS" && p.mixedPort == 0 && p.socksPort > 65535)
      || (kind == "HTTP" && p.mixedPort == 0 && p.socksPort <= 65535 && p.httpPort > 65535)
    case PortClash(kind, other) =>
      kind == "HTTP" && other == "SOCKS" && p.mixedPort == 0 && 0 < p.socksPort == p.httpPort <= 65535
    case _ => false
  }

  predicate WrongBy(p: Payload, problem: Problem) {
    if Negative(p) then problem == NegativePort
    else if p.nodeIds == [] then problem == NoNodesChosen
    else if LacksCredentials(p) then problem == MissingCredentials
    else if NoPortAtAll(p) then problem == NoPort
    else if NothingPositive(p.nodeIds) then problem == NoNodesChosen
    else PortsWrong(p, problem)
  }

  lemma PortsWrongIff(p: Payload, problem: Problem)
    requires !Negative(p) && !NoPortAtAll(p)
    ensures var socks, http := if p.mixedPort > 0 then 0 else p.socksPort, if p.mixedPort > 0 then 0 else p.httpPort;
            (PortProblem(p.mixedPort, socks, http) == Some(problem)) <==> PortsWrong(p, problem)
  {
  }

  /** A payload is refused for the first thing wrong with it, and only then. */
  lemma RefusedForIff(p: Payload, problem: Problem)
    ensures Normalize(p) == Failed(problem) <==> WrongBy(p, problem)
  {
    hide TrimSpace, DistinctIds, Blank, NormalizeSettings, PortProblem, PortsWrong;
    if !Negative(p) && !NoPortAtAll(p) {
      PortsWrongIff(p, problem);
    }
    DistinctIdsMembers(p.nodeIds);
    BlankTexts(p);
    AuthKept(p.proxySettings);
    assert (exists id | id in p.nodeIds :: id > 0) <==> !NothingPositive(p.nodeIds);
  }

  lemma AuthKept(s: ProxySettings)
    ensures var q := NormalizeSettings(s);
            && q.authEnabled == s.authEnabled
            && (s.authEnabled ==> q.authUsername == TrimSpace(s.authUsername) && q.authPassword == TrimSpace(s.authPassword))
  {
    hide TrimSpace;
  }

  lemma BlankTexts(p: Payload)
    ensures Blank(p.proxySettings.authUsername) <==> TrimSpace(p.proxySettings.authUsername) == ""
    ensures Blank(p.proxySettings.authPassword) <==> TrimSpace(p.proxySettings.authPassword) == ""
  {
    TrimSpaceBlank(p.proxySettings.authUsername);
    TrimSpaceBlank(p.proxySettings.authPassword);
  }

  // ----- When a save succeeds -----

  ghost predicate NameClashes(env: Env, db: Database, id: int, p: Payload) {
    exists other :: other in db.profiles && (id <= 0 || other != id)
                    && env.sqlLower(db.profiles[other].name) == env.goLower(OrElse(p.name, "POOLX"))
  }

  ghost predicate PortClashes(db: Database, id: int, p: Payload) {
    p.mixedPort > 0 && exists other :: other in db.profiles && (id <= 0 || other != id)
                                       && db.profiles[other].mixedPort == p.mixedPort
  }

  lemma ClashesAre(env: Env, db: Database, id: int, p: Payload)
    requires Normalize(p).Ok?
    ensures NameInUse(env, db, Normalize(p).value, id) <==> NameClashes(env, db, id, p)
    ensures PortInUse(db, Normalize(p).value, id) <==> PortClashes(db, id, p)
  {
    hide Normalize, OrElse, Picks, FirstPositive, Mended;
    var at := NormalFields(p);
  }

  /** A save succeeds exactly when the payload is acceptable, no other profile has its name or
      its mixed port, and the profile exists; and it fails for the first of these missing. */
  lemma SaveSucceedsIff(env: Env, db: Database, id: int, p: Payload)
    requires SettingsRoundTrip(env)
    ensures var (after, r) := Update(env, db, id, p);
            && (r.Ok? <==> && Acceptable(p) && !NameClashes(env, db, id, p) && !PortClashes(db, id, p)
                           && id in db.profiles)
            && (r == Failed(NameTaken) <==> Acceptable(p) && NameClashes(env, db, id, p))
            && (r == Failed(MixedPortTaken) <==>
                  Acceptable(p) && !NameClashes(env, db, id, p) && PortClashes(db, id, p))
            && (!r.Ok? ==> after == db)
  {
    hide Normalize, NameInUse, PortInUse, NameClashes, PortClashes, Stored, ViewOf, Holds, Acceptable;
    AcceptedIff(p);
    if Normalize(p).Ok? {
      ClashesAre(env, db, id, p);
      StoredHolds(env, db, id, Normalize(p).value);
      HeldPayloadReadsBack(env, Stored(env, db, id, Normalize(p).value), id, Normalize(p).value, {});
    } else {
      RefusedForIff(p, Normalize(p).error);
    }
  }

  // ----- What a transaction touches -----

  // Another profile stands as it stood.
  ghost predicate Untouched(db: Database, after: Database, id: int) {
    && (id in after.profiles <==> id in db.profiles)
    && (id in db.profiles ==> after.profiles[id] == db.profiles[id])
    && (id in after.runtimes <==> id in db.runtimes)
    && (id in db.runtimes ==> after.runtimes[id] == db.runtimes[id])
  }

  /** A save writes one profile's row and choice, drops its snapshot, and touches nothing else. */
  lemma SaveTouches(env: Env, db: Database, id: int, q: Payload)
    ensures var after := Stored(env, db, id, q);
            && after.nodes == db.nodes && id !in after.runtimes && id in after.profiles
            && after.profiles[id] == PortProfile(id, q.name, q.listenHost, q.mixedPort, q.socksPort, q.httpPort,
                                                 env.encode(q.proxySettings), ZERO_SETTINGS, q.includeInRuntime, env.kernelType)
            && |Mine(after.relations, id)| == |q.nodeIds|
            && (forall i :: 0 <= i < |q.nodeIds| ==>
                  Mine(after.relations, id)[i] == Relation(db.nextRelation + i, id, q.nodeIds[i], i))
            && forall other :: other != id ==>
                 Untouched(db, after, other) && Mine(after.relations, other) == Mine(db.relations, other)
  {
    hide Mine, Others;
    StoredRelations(env, db, id, q, id);
    forall other ensures other != id ==> Mine(Stored(env, db, id, q).relations, other) == Mine(db.relations, other) {
      StoredRelations(env, db, id, q, other);
    }
  }

  /** Deleting a profile leaves no row, choice or snapshot of it, and touches no other. */
  lemma ProfileDeletionTouches(db: Database, id: int)
    ensures var after := ProfileDeleted(db, id);
            && after.nodes == db.nodes
            && (id <= 0 ==> after == db)
            && (id > 0 ==> id !in after.profiles && id !in after.runtimes && Mine(after.relations, id) == [])
            && forall other :: other != id ==>
                 Untouched(db, after, other) && Mine(after.relations, other) == Mine(db.relations, other)
  {
    hide Mine, Others;
    forall other ensures Mine(Others(db.relations, id), other) == if other == id then [] else Mine(db.relations, other) {
      MineOfOthers(db.relations, id, other);
    }
  }

  /** Deleting a node leaves neither the node nor any choice of it, and touches nothing else. */
  lemma NodeDeletionTouches(db: Database, id: int)
    ensures var after := NodeDeleted(db, id);
            && after.profiles == db.profiles && after.runtimes == db.runtimes
            && (id <= 0 || !Has(db.nodes, id) ==> after == db)
            && (id > 0 && Has(db.nodes, id) ==>
                  && (forall n :: n in after.nodes <==> n in db.nodes && n.id != id)
                  && (forall r :: r in after.relations <==> r in db.relations && r.nodeId != id))
  {
    WithoutNodeAre(db.relations, id);
    hide WithoutNode, OtherNodes;
  }

  lemma {:induction false} WithoutNodeAre(relations: seq<Relation>, node: int)
    ensures forall r :: r in WithoutNode(relations, node) <==> r in relations && r.nodeId != node
  {
    if relations != [] {
      WithoutNodeAre(relations[1..], node);
      assert relations == [relations[0]] + relations[1..];
    }
  }

  // ----- What a view and a preview show -----

  lemma {:induction false} MineAre(relations: seq<Relation>, id: int)
    ensures forall r :: r in Mine(relations, id) <==> r in relations && r.profileId == id
  {
    if relations != [] {
      MineAre(relations[1..], id);
      assert relations == [relations[0]] + relations[1..];
    }
  }

  lemma RelationOrderLawful()
    ensures Lawful(CompareRelations)
  {
  }

  lemma ListedInOrder(db: Database, id: int)
    ensures var rows := ListRelations(db, id);
            && (forall r :: r in rows <==> r in db.relations && r.profileId == id)
            && (forall i, j :: 0 <= i < j < |rows| ==>
                  || rows[i].sortOrder < rows[j].sortOrder
                  || (rows[i].sortOrder == rows[j].sortOrder && rows[i].id <= rows[j].id))
  {
    hide Mine, Sort;
    RelationOrderLawful();
    SortSorts(CompareRelations, Mine(db.relations, id));
    MineAre(db.relations, id);
    SamePermutation(ListRelations(db, id), Mine(db.relations, id));
  }

  /** A view shows the row with the settings of its column, the chosen ids by sort order, the
      nodes found for them, and the snapshot; a missing row and settings that cannot be read
      are the only failures. */
  lemma ViewIs(env: Env, db: Database, id: int)
    ensures ViewOf(env, db, id) == Failed(NoSuchProfile) <==> id !in db.profiles
    ensures id in db.profiles ==>
              var settings := ParseSettings(env.codec, db.profiles[id].proxySettingsJson);
              && (ViewOf(env, db, id) == Failed(UnreadableSettings) <==> settings.None?)
              && (settings.Some? ==> ViewOf(env, db, id).Ok?)
    ensures ViewOf(env, db, id).Ok? ==>
              var view, rows := ViewOf(env, db, id).value, ListRelations(db, id);
              && view.profile.(proxySettings := db.profiles[id].proxySettings) == db.profiles[id]
              && Some(view.profile.proxySettings) == ParseSettings(env.codec, db.profiles[id].proxySettingsJson)
              && |view.nodeIds| == |rows| && (forall i :: 0 <= i < |rows| ==> view.nodeIds[i] == rows[i].nodeId)
              && (forall r :: r in rows <==> r in db.relations && r.profileId == id)
              && (forall i, j :: 0 <= i < j < |rows| ==>
                    || rows[i].sortOrder < rows[j].sortOrder
                    || (rows[i].sortOrder == rows[j].sortOrder && rows[i].id <= rows[j].id))
              && (forall n :: n in view.nodes <==> n in db.nodes && n.id in view.nodeIds)
              && (view.runtime == if id in db.runtimes then Some(db.runtimes[id]) else None)
  {
    hide ListRelations, NodeIds, ParseSettings, FindByIds;
    ListedInOrder(db, id);
  }

  /** A preview shows the normal form as a profile of no id, its choice and those nodes. */
  lemma PreviewIs(env: Env, db: Database, p: Payload)
    requires Preview(env, db, p).Ok?
    ensures Normalize(p).Ok? && Resolve(db.nodes, Normalize(p).value.nodeIds).Some?
    ensures var q, preview := Normalize(p).value, Preview(env, db, p).value;
            && preview.profile == PortProfile(0, q.name, q.listenHost, q.mixedPort, q.socksPort, q.httpPort,
                                              env.encode(q.proxySettings), q.proxySettings, q.includeInRuntime,
                                              env.kernelType)
            && preview.nodeIds == q.nodeIds && Some(preview.nodes) == Resolve(db.nodes, q.nodeIds)
            && RenderFragment(env.codec, preview.profile, preview.nodes) == Ok(preview.fragment)
  {
    hide Normalize, Resolve, RenderFragment;
  }
}
