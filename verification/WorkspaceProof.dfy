/** Normalisation is idempotent, and what was saved previews as it was sent. */
module WorkspaceProof {
  import opened Outcomes
  import opened GoText
  import opened Sequences
  import opened Orders
  import opened MihomoRenderer
  import opened Workspace

  // ----- Which payloads are accepted, and in what form -----

  predicate CanonicalSettings(s: ProxySettings) {
    && s.strategyType in {"select", "url-test", "fallback", "load-balance"}
    && s.testUrl != "" && Trimmed(s.testUrl)
    && s.testIntervalSeconds > 0
    && s.loadBalanceStrategy in {"round-robin", "consistent-hashing"}
    && (if s.authEnabled then Trimmed(s.authUsername) && Trimmed(s.authPassword)
        else s.authUsername == "" && s.authPassword == "")
  }

  predicate SoundPorts(mixed: int, socks: int, http: int) {
    && 0 <= mixed <= 65535 && 0 <= socks <= 65535 && 0 <= http <= 65535
    && (if mixed > 0 then socks == 0 && http == 0 else socks != http)
  }

  ghost predicate Canonical(q: Payload) {
    && q.name != "" && Trimmed(q.name)
    && q.listenHost != "" && Trimmed(q.listenHost)
    && SoundPorts(q.mixedPort, q.socksPort, q.httpPort)
    && CanonicalSettings(q.proxySettings)
    && (q.proxySettings.authEnabled ==> q.proxySettings.authUsername != "" && q.proxySettings.authPassword != "")
    && q.nodeIds != [] && Distinct(q.nodeIds) && forall id :: id in q.nodeIds ==> id > 0
  }

  predicate Acceptable(p: Payload) {
    && p.mixedPort >= 0 && p.socksPort >= 0 && p.httpPort >= 0
    && (if p.mixedPort > 0 then p.mixedPort <= 65535
        else p.socksPort <= 65535 && p.httpPort <= 65535 && p.socksPort != p.httpPort)
    && (exists id | id in p.nodeIds :: id > 0)
    && (p.proxySettings.authEnabled ==>
          TrimSpace(p.proxySettings.authUsername) != "" && TrimSpace(p.proxySettings.authPassword) != "")
  }

  lemma DistinctIdsMembers(ids: seq<int>)
    ensures Distinct(DistinctIds(ids)) && forall id :: id in DistinctIds(ids) <==> id in ids && id > 0
    ensures InOrderOf(DistinctIds(ids), PositiveIds(ids))
    ensures DistinctIds(ids) == [] <==> !exists id | id in ids :: id > 0
  {
    hide InOrderOf, Distinct, PositiveIds;
    UnseenInOrder(PositiveIds(ids), {});
    if DistinctIds(ids) != [] {
      assert DistinctIds(ids)[0] in DistinctIds(ids);
    }
  }

  lemma {:induction false} PositiveIdsFixed(ids: seq<int>)
    requires forall id :: id in ids ==> id > 0
    ensures PositiveIds(ids) == ids
  {
    if ids != [] {
      assert ids[0] in ids && forall id :: id in ids[1..] ==> id in ids;
      PositiveIdsFixed(ids[1..]);
    }
  }

  lemma SettingsCanonical(s: ProxySettings)
    ensures CanonicalSettings(NormalizeSettings(s))
  {
    hide TrimSpace, Trimmed;
    assert Trimmed(DEFAULT_TEST_URL) by { assert Trimmed(TrimSpace(DEFAULT_TEST_URL)); DefaultUrlTrimmed(); }
  }

  lemma DefaultUrlTrimmed()
    ensures Trimmed(DEFAULT_TEST_URL) && Trimmed(LOOPBACK) && Trimmed(GROUP_NAME)
    ensures Trimmed("select") && Trimmed("url-test") && Trimmed("fallback") && Trimmed("load-balance")
    ensures Trimmed("round-robin") && Trimmed("consistent-hashing") && Trimmed("")
  {
  }

  lemma SettingsFixed(s: ProxySettings)
    requires CanonicalSettings(s)
    ensures NormalizeSettings(s) == s
  {
    hide TrimSpace, Trimmed;
    DefaultUrlTrimmed();
  }

  /** Exactly the payloads of this shape are accepted. */
  lemma AcceptedIff(p: Payload)
    ensures Normalize(p).Ok? <==> Acceptable(p)
    ensures !Normalize(p).Crashed?
  {
    hide DistinctIds, TrimSpace;
    DistinctIdsMembers(p.nodeIds);
  }

  /** What normalisation returns is canonical. */
  lemma NormalizeCanonical(p: Payload)
    requires Normalize(p).Ok?
    ensures Canonical(Normalize(p).value)
  {
    hide DistinctIds, TrimSpace, Trimmed, NormalizeSettings, Distinct;
    DistinctIdsMembers(p.nodeIds);
    SettingsCanonical(p.proxySettings);
    DefaultUrlTrimmed();
  }

  /** Canonical payloads are exactly the fixed points. */
  lemma FixedIffCanonical(q: Payload)
    ensures Normalize(q) == Ok(q) <==> Canonical(q)
  {
    hide Distinct, TrimSpace, Trimmed, Unseen, CanonicalSettings, NormalizeSettings;
    if Normalize(q) == Ok(q) {
      NormalizeCanonical(q);
    }
    if Canonical(q) {
      PositiveIdsFixed(q.nodeIds);
      UnseenOfDistinct(q.nodeIds, {});
      SettingsFixed(q.proxySettings);
    }
  }

  /** Normalising twice is normalising once, on every accepted payload. */
  lemma NormalizeIsIdempotent(p: Payload)
    requires Normalize(p).Ok?
    ensures Normalize(Normalize(p).value) == Normalize(p)
  {
    hide Normalize, Canonical;
    NormalizeCanonical(p);
    FixedIffCanonical(Normalize(p).value);
  }

  // ----- Reading back the relations of a profile -----

  lemma {:induction false} MineOfConcat(a: seq<Relation>, b: seq<Relation>, id: int)
    ensures Mine(a + b, id) == Mine(a, id) + Mine(b, id)
  {
    if a == [] {
      assert a + b == b;
    } else {
      MineOfConcat(a[1..], b, id);
      assert (a + b)[0] == a[0] && (a + b)[1..] == a[1..] + b;
    }
  }

  lemma {:induction false} MineOfOthers(relations: seq<Relation>, id: int, other: int)
    ensures Mine(Others(relations, id), other) == if other == id then [] else Mine(relations, other)
  {
    if relations != [] {
      MineOfOthers(relations[1..], id, other);
      if relations[0].profileId != id {
        assert Others(relations, id)[1..] == Others(relations[1..], id);
      }
    }
  }

  lemma {:induction false} MineOfUniform(relations: seq<Relation>, id: int, other: int)
    requires forall r :: r in relations ==> r.profileId == id
    ensures Mine(relations, other) == if other == id then relations else []
  {
    if relations != [] {
      assert relations[0] in relations;
      MineOfUniform(relations[1..], id, other);
    }
  }

  lemma StoredRelations(env: Env, db: Database, id: int, q: Payload, other: int)
    ensures var after := Stored(env, db, id, q);
            Mine(after.relations, other) ==
              if other == id then NewRelations(db.nextRelation, id, q.nodeIds) else Mine(db.relations, other)
  {
    hide Mine, Others;
    var items := NewRelations(db.nextRelation, id, q.nodeIds);
    MineOfConcat(Others(db.relations, id), items, other);
    MineOfOthers(db.relations, id, other);
    MineOfUniform(items, id, other);
    assert Mine(db.relations, other) + [] == Mine(db.relations, other);
  }

  lemma NewRelationsSorted(first: int, id: int, nodeIds: seq<int>)
    ensures SortedBy(CompareRelations, NewRelations(first, id, nodeIds))
    ensures NodeIds(NewRelations(first, id, nodeIds)) == nodeIds
  {
  }

  function Without(ids: seq<int>, gone: set<int>): (kept: seq<int>)
    ensures forall id :: id in kept <==> id in ids && id !in gone
    ensures gone == {} ==> kept == ids
  {
    if ids == [] then []
    else if ids[0] in gone then Without(ids[1..], gone)
    else [ids[0]] + Without(ids[1..], gone)
  }

  // The stored rows of a profile say what a normalised payload says, but for some nodes.
  ghost predicate Holds(env: Env, db: Database, id: int, q: Payload, gone: set<int>) {
    && id in db.profiles
    && db.profiles[id].(kernelType := env.kernelType) == RowOf(env, id, q, ZERO_SETTINGS)
    && SortedBy(CompareRelations, Mine(db.relations, id))
    && NodeIds(Mine(db.relations, id)) == Without(q.nodeIds, gone)
  }

  lemma StoredHolds(env: Env, db: Database, id: int, q: Payload)
    ensures Holds(env, Stored(env, db, id, q), id, q, {})
  {
    hide Mine, Others, NewRelations;
    StoredRelations(env, db, id, q, id);
    NewRelationsSorted(db.nextRelation, id, q.nodeIds);
  }

  lemma StoredElsewhere(env: Env, db: Database, id: int, q: Payload, other: int, r: Payload, gone: set<int>)
    requires other != id && Holds(env, db, other, r, gone)
    ensures Holds(env, Stored(env, db, id, q), other, r, gone)
  {
    hide Mine, Others, NewRelations, NodeIds, SortedBy, Without;
    StoredRelations(env, db, id, q, other);
  }

  // ----- Save, then preview -----

  // Settings survive being written to and read from their column.
  ghost predicate SettingsRoundTrip(env: Env) {
    forall s :: ParseSettings(env.codec, env.encode(s)) == Some(s)
  }

  lemma HeldPayloadReadsBack(env: Env, db: Database, id: int, q: Payload, gone: set<int>)
    requires SettingsRoundTrip(env) && Holds(env, db, id, q, gone)
    ensures ViewOf(env, db, id).Ok?
    ensures PayloadOf(ViewOf(env, db, id).value) == q.(nodeIds := Without(q.nodeIds, gone))
  {
    hide Mine, NodeIds, ParseSettings, FindByIds, Sort, Without;
    SortOfSorted(CompareRelations, Mine(db.relations, id));
  }

  // A payload previews like its normal form.
  lemma PreviewOfNormalized(env: Env, db: Database, p: Payload)
    requires Normalize(p).Ok?
    ensures Preview(env, db, Normalize(p).value) == Preview(env, db, p)
  {
    hide Normalize, Resolve, RenderFragment;
    NormalizeIsIdempotent(p);
  }

  // An update that answers with a view has stored the normal form; any other changes nothing.
  lemma UpdateStores(env: Env, db: Database, id: int, p: Payload)
    requires SettingsRoundTrip(env)
    ensures var (after, r) := Update(env, db, id, p);
            if r.Ok? then
              && Normalize(p).Ok?
              && after == Stored(env, db, id, Normalize(p).value)
              && PayloadOf(r.value) == Normalize(p).value
            else after == db
  {
    hide Normalize, Stored, ViewOf, UniquenessProblem, Holds, Without;
    if Normalize(p).Ok? {
      var q := Normalize(p).value;
      StoredHolds(env, db, id, q);
      HeldPayloadReadsBack(env, Stored(env, db, id, q), id, q, {});
    }
  }

  /** After a successful save the saved preview is the preview of what was sent: the same
      content and node order, or the same failure. */
  lemma SaveThenPreview(env: Env, db: Database, id: int, p: Payload)
    requires SettingsRoundTrip(env) && Update(env, db, id, p).1.Ok?
    ensures PreviewSaved(env, Update(env, db, id, p).0, id) == Preview(env, db, p)
  {
    hide Update, ViewOf, Preview, Holds, Normalize, Without;
    var after := Update(env, db, id, p).0;
    UpdateStores(env, db, id, p);
    StoredHolds(env, db, id, Normalize(p).value);
    HeldPayloadReadsBack(env, after, id, Normalize(p).value, {});
    PreviewOfNormalized(env, after, p);
    SameNodesSamePreview(env, db, after, p);
  }

  lemma SameNodesSamePreview(env: Env, db: Database, after: Database, p: Payload)
    requires after.nodes == db.nodes
    ensures Preview(env, after, p) == Preview(env, db, p)
  {
    hide Normalize, Resolve, RenderFragment;
  }

  // ----- Names and mixed ports -----

  datatype Field = ByName | ByPort

  datatype Claim = Called(name: string) | Listening(port: int)

  // What a row takes for itself among all profiles.
  function Claimed(env: Env, f: Field, row: PortProfile): Option<Claim> {
    match f
    case ByName => Some(Called(env.sqlLower(row.name)))
    case ByPort => if row.mixedPort > 0 then Some(Listening(row.mixedPort)) else None
  }

  ghost predicate Apart(env: Env, f: Field, profiles: map<int, PortProfile>) {
    forall a, b :: a in profiles && b in profiles && a != b && Claimed(env, f, profiles[a]).Some? ==>
      Claimed(env, f, profiles[a]) != Claimed(env, f, profiles[b])
  }

  lemma StoredUnique(env: Env, db: Database, id: int, q: Payload)
    requires UniquenessProblem(env, db, q, id).None?
    ensures Apart(env, ByPort, db.profiles) ==> Apart(env, ByPort, Stored(env, db, id, q).profiles)
    ensures Apart(env, ByName, db.profiles) && env.sqlLower(q.name) == env.goLower(q.name) ==>
              Apart(env, ByName, Stored(env, db, id, q).profiles)
  {
  }

  // A save under this name keeps names apart, whatever the tables hold.
  ghost predicate NeverDuplicates(env: Env, q: Payload) {
    forall db: Database, id ::
      id in db.profiles && Apart(env, ByName, db.profiles) && UniquenessProblem(env, db, q, id).None? ==>
        Apart(env, ByName, Stored(env, db, id, q).profiles)
  }

  /** The name check is sound for exactly the names that SQL and Go lower-case alike. */
  lemma NameCheckSoundIff(env: Env, q: Payload, other: string)
    requires env.sqlLower(other) != env.sqlLower(q.name)
    ensures NeverDuplicates(env, q) <==> env.sqlLower(q.name) == env.goLower(q.name)
  {
    hide Stored;
    if env.sqlLower(q.name) == env.goLower(q.name) {
      forall db: Database, id
        | id in db.profiles && Apart(env, ByName, db.profiles) && UniquenessProblem(env, db, q, id).None?
        ensures Apart(env, ByName, Stored(env, db, id, q).profiles)
      {
        StoredUnique(env, db, id, q);
      }
    } else {
      NameSlipsThrough(env, q, other);
    }
  }

  lemma NameSlipsThrough(env: Env, q: Payload, other: string)
    requires env.sqlLower(other) != env.sqlLower(q.name)
    requires env.sqlLower(q.name) != env.goLower(q.name)
    ensures !NeverDuplicates(env, q)
  {
    hide Others, NewRelations;
    var row := RowOf(env, 1, q, ZERO_SETTINGS).(mixedPort := 0);
    var db := Database(map[1 := row, 2 := row.(name := other)], [], 1, [], map[]);
    assert Apart(env, ByName, db.profiles);
    assert UniquenessProblem(env, db, q, 2).None?;
    var after := Stored(env, db, 2, q).profiles;
    assert 1 in after && 2 in after && after[1].name == after[2].name;
    assert !Apart(env, ByName, after);
  }
}
