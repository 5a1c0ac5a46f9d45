/**
 Saving and previewing port profiles (service/port_profile.go).  Tables are values;
 a transaction is one assignment to all of them.
 */
module Workspace {
  import opened Outcomes
  import opened GoText
  import opened Sequences
  import opened Orders
  import opened MihomoRenderer

  const GROUP_NAME := "POOLX"

  const LOOPBACK := "127.0.0.1"

  datatype Payload = Payload(
    name: string, listenHost: string, mixedPort: int, socksPort: int, httpPort: int,
    proxySettings: ProxySettings, includeInRuntime: bool, nodeIds: seq<int>)

  datatype Problem =
    | NegativePort | NoNodesChosen | MissingCredentials | NoPort
    | InvalidPort(kind: string) | PortClash(kind: string, other: string)
    | NameTaken | MixedPortTaken | NoSuchProfile | UnreadableSettings | NodesMissing
    | Unrendered(error: FragmentError)

  // Encoders, the two lower-casings (SQL's and Go's) and the configured kernel.
  datatype Env = Env(
    codec: Codec, encode: ProxySettings -> string,
    sqlLower: string -> string, goLower: string -> string, kernelType: string)

  // ----- Normalising a payload -----

  function NormalizeSettings(s: ProxySettings): ProxySettings {
    var base := if s != ZERO_SETTINGS then s else DEFAULT_SETTINGS;
    ProxySettings(
      NormalizeStrategyType(base.strategyType),
      Fallback(TrimSpace(s.testUrl), DEFAULT_TEST_URL),
      Positive(s.testIntervalSeconds, DEFAULT_SETTINGS.testIntervalSeconds),
      NormalizeLoadBalance(s.loadBalanceStrategy),
      base.loadBalanceLazy, base.loadBalanceDisableUdp, base.udpEnabled,
      s.authEnabled,
      if s.authEnabled then TrimSpace(s.authUsername) else "",
      if s.authEnabled then TrimSpace(s.authPassword) else "")
  }

  function PositiveIds(ids: seq<int>): (positive: seq<int>)
    ensures forall id :: id in positive <==> id in ids && id > 0
  {
    if ids == [] then [] else if ids[0] > 0 then [ids[0]] + PositiveIds(ids[1..]) else PositiveIds(ids[1..])
  }

  function DistinctIds(ids: seq<int>): seq<int> {
    Unseen(PositiveIds(ids), {})
  }

  function PortProblem(mixed: int, socks: int, http: int): Option<Problem> {
    if !(0 <= mixed <= 65535) then Some(InvalidPort("Mixed"))
    else if !(0 <= socks <= 65535) then Some(InvalidPort("SOCKS"))
    else if socks > 0 && socks == mixed then Some(PortClash("SOCKS", "Mixed"))
    else if !(0 <= http <= 65535) then Some(InvalidPort("HTTP"))
    else if http > 0 && http == mixed then Some(PortClash("HTTP", "Mixed"))
    else if http > 0 && http == socks then Some(PortClash("HTTP", "SOCKS"))
    else None
  }

  function Normalize(p: Payload): Step<Payload, Problem> {
    var settings := NormalizeSettings(p.proxySettings);
    if p.mixedPort < 0 || p.socksPort < 0 || p.httpPort < 0 then Failed(NegativePort)
    else if p.nodeIds == [] then Failed(NoNodesChosen)
    else if settings.authEnabled && (settings.authUsername == "" || settings.authPassword == "") then
      Failed(MissingCredentials)
    else if p.mixedPort <= 0 && p.socksPort <= 0 && p.httpPort <= 0 then Failed(NoPort)
    else
      var socks := if p.mixedPort > 0 then 0 else p.socksPort;
      var http := if p.mixedPort > 0 then 0 else p.httpPort;
      if DistinctIds(p.nodeIds) == [] then Failed(NoNodesChosen)
      else
        match PortProblem(p.mixedPort, socks, http)
        case Some(problem) => Failed(problem)
        case None =>
          Ok(Payload(Fallback(TrimSpace(p.name), GROUP_NAME), Fallback(TrimSpace(p.listenHost), LOOPBACK),
                     p.mixedPort, socks, http, settings, p.includeInRuntime, DistinctIds(p.nodeIds)))
  }

  method DeduplicateNodeIDs(nodeIds: seq<int>) returns (result: seq<int>)
    ensures result == DistinctIds(nodeIds)
  {
    hide Unseen;
    var seen: set<int> := {};
    result := [];
    for i := 0 to |nodeIds|
      invariant result + Unseen(PositiveIds(nodeIds[i..]), seen) == DistinctIds(nodeIds)
    {
      assert nodeIds[i..][1..] == nodeIds[i + 1..];
      ghost var rest := PositiveIds(nodeIds[i + 1..]);
      assert PositiveIds(nodeIds[i..]) == if nodeIds[i] > 0 then [nodeIds[i]] + rest else rest;
      if nodeIds[i] <= 0 {
        continue;
      }
      UnseenStep(nodeIds[i], rest, seen);
      if nodeIds[i] in seen {
        continue;
      }
      ghost var later := Unseen(rest, seen + {nodeIds[i]});
      assert result + ([nodeIds[i]] + later) == (result + [nodeIds[i]]) + later;
      seen := seen + {nodeIds[i]};
      result := result + [nodeIds[i]];
    }
    assert nodeIds[|nodeIds|..] == [];
    NothingUnseen(seen);
    assert result + [] == result;
  }

  method AddPort(ports: map<int, string>, port: int, kind: string) returns (added: map<int, string>,
                 problem: Option<Problem>)
    ensures added == if port != 0 && problem.None? then ports[port := kind] else ports
    ensures problem == if port == 0 then None
                       else if port < 0 || port > 65535 then Some(InvalidPort(kind))
                       else if port in ports then Some(PortClash(kind, ports[port]))
                       else None
  {
    if port == 0 {
      return ports, None;
    }
    if port < 0 || port > 65535 {
      return ports, Some(InvalidPort(kind));
    }
    if port in ports {
      return ports, Some(PortClash(kind, ports[port]));
    }
    return ports[port := kind], None;
  }

  method ValidatePortProfilePorts(p: Payload) returns (problem: Option<Problem>)
    ensures problem == PortProblem(p.mixedPort, p.socksPort, p.httpPort)
  {
    var ports: map<int, string> := map[];
    ports, problem := AddPort(ports, p.mixedPort, "Mixed");
    if problem.Some? {
      return;
    }
    ports, problem := AddPort(ports, p.socksPort, "SOCKS");
    if problem.Some? {
      return;
    }
    ports, problem := AddPort(ports, p.httpPort, "HTTP");
  }

  method NormalizePortProfilePayload(p: Payload) returns (r: Step<Payload, Problem>)
    ensures r == Normalize(p)
  {
    hide NormalizeSettings, TrimSpace, DistinctIds, PortProblem;
    var groupName := Fallback(TrimSpace(p.name), GROUP_NAME);
    if p.mixedPort < 0 || p.socksPort < 0 || p.httpPort < 0 {
      return Failed(NegativePort);
    }
    if |p.nodeIds| == 0 {
      return Failed(NoNodesChosen);
    }
    var settings := NormalizeSettings(p.proxySettings);
    if settings.authEnabled && (settings.authUsername == "" || settings.authPassword == "") {
      return Failed(MissingCredentials);
    }
    var socksPort, httpPort := p.socksPort, p.httpPort;
    if p.mixedPort > 0 {
      socksPort := 0;
      httpPort := 0;
    } else if socksPort <= 0 && httpPort <= 0 {
      return Failed(NoPort);
    }
    var nodeIds := DeduplicateNodeIDs(p.nodeIds);
    var normalized := Payload(groupName, Fallback(TrimSpace(p.listenHost), LOOPBACK),
                              p.mixedPort, socksPort, httpPort, settings, p.includeInRuntime, nodeIds);
    if |normalized.nodeIds| == 0 {
      return Failed(NoNodesChosen);
    }
    var problem := ValidatePortProfilePorts(normalized);
    if problem.Some? {
      return Failed(problem.value);
    }
    return Ok(normalized);
  }

  // ----- The tables -----

  datatype Relation = Relation(id: int, profileId: int, nodeId: int, sortOrder: int)

  // nodes: in primary-key order; proxySettings of a stored profile is no column.
  datatype Database = Database(
    profiles: map<int, PortProfile>, relations: seq<Relation>, nextRelation: int,
    nodes: seq<ProxyNode>, runtimes: map<int, Fragment>)

  ghost predicate KeysAscend(nodes: seq<ProxyNode>) {
    forall i, j :: 0 <= i < j < |nodes| ==> nodes[i].id < nodes[j].id
  }

  datatype View = View(profile: PortProfile, nodeIds: seq<int>, nodes: seq<ProxyNode>, runtime: Option<Fragment>)

  datatype ProfilePreview = ProfilePreview(
    profile: PortProfile, nodeIds: seq<int>, nodes: seq<ProxyNode>, fragment: Fragment)

  function FindByIds(nodes: seq<ProxyNode>, ids: seq<int>): (found: seq<ProxyNode>)
    ensures forall n :: n in found <==> n in nodes && n.id in ids
  {
    if nodes == [] then []
    else if nodes[0].id in ids then [nodes[0]] + FindByIds(nodes[1..], ids)
    else FindByIds(nodes[1..], ids)
  }

  function Mine(relations: seq<Relation>, profileId: int): seq<Relation> {
    if relations == [] then []
    else if relations[0].profileId == profileId then [relations[0]] + Mine(relations[1..], profileId)
    else Mine(relations[1..], profileId)
  }

  function Others(relations: seq<Relation>, profileId: int): seq<Relation> {
    if relations == [] then []
    else if relations[0].profileId != profileId then [relations[0]] + Others(relations[1..], profileId)
    else Others(relations[1..], profileId)
  }

  function CompareRelations(a: Relation, b: Relation): int {
    if a.sortOrder != b.sortOrder then CompareInt(a.sortOrder, b.sortOrder) else CompareInt(a.id, b.id)
  }

  function ListRelations(db: Database, profileId: int): seq<Relation> {
    Sort(CompareRelations, Mine(db.relations, profileId))
  }

  function NodeIds(relations: seq<Relation>): (ids: seq<int>)
    ensures |ids| == |relations| && forall i :: 0 <= i < |ids| ==> ids[i] == relations[i].nodeId
  {
    if relations == [] then [] else [relations[0].nodeId] + NodeIds(relations[1..])
  }

  function NewRelations(first: int, profileId: int, nodeIds: seq<int>): seq<Relation> {
    seq(|nodeIds|, i requires 0 <= i < |nodeIds| => Relation(first + i, profileId, nodeIds[i], i))
  }

  // ----- Operations as functions -----

  function ViewOf(env: Env, db: Database, id: int): Step<View, Problem> {
    if id !in db.profiles then Failed(NoSuchProfile)
    else
      match ParseSettings(env.codec, db.profiles[id].proxySettingsJson)
      case None => Failed(UnreadableSettings)
      case Some(settings) =>
        var nodeIds := NodeIds(ListRelations(db, id));
        Ok(View(db.profiles[id].(proxySettings := settings), nodeIds, FindByIds(db.nodes, nodeIds),
                if id in db.runtimes then Some(db.runtimes[id]) else None))
  }

  predicate Considered(id: int, currentId: int) {
    currentId <= 0 || id != currentId
  }

  // The two counting queries.
  predicate NameInUse(env: Env, db: Database, q: Payload, currentId: int) {
    exists id | id in db.profiles ::
      Considered(id, currentId) && env.sqlLower(db.profiles[id].name) == env.goLower(q.name)
  }

  predicate PortInUse(db: Database, q: Payload, currentId: int) {
    q.mixedPort > 0 && exists id | id in db.profiles ::
      Considered(id, currentId) && db.profiles[id].mixedPort == q.mixedPort
  }

  function UniquenessProblem(env: Env, db: Database, q: Payload, currentId: int): Option<Problem> {
    if NameInUse(env, db, q, currentId) then Some(NameTaken)
    else if PortInUse(db, q, currentId) then Some(MixedPortTaken)
    else None
  }

  // The row written for a normalised payload.
  function RowOf(env: Env, id: int, q: Payload, settings: ProxySettings): PortProfile {
    PortProfile(id, q.name, q.listenHost, q.mixedPort, q.socksPort, q.httpPort,
                env.encode(q.proxySettings), settings, q.includeInRuntime, env.kernelType)
  }

  function Stored(env: Env, db: Database, id: int, q: Payload): Database {
    db.(profiles := db.profiles[id := RowOf(env, id, q, ZERO_SETTINGS)],
        relations := Others(db.relations, id) + NewRelations(db.nextRelation, id, q.nodeIds),
        nextRelation := db.nextRelation + |q.nodeIds|,
        runtimes := db.runtimes - {id})
  }

  /** The tables afterwards and the answer. */
  function Update(env: Env, db: Database, id: int, p: Payload): (Database, Step<View, Problem>) {
    match Normalize(p)
    case Failed(problem) => (db, Failed(problem))
    case Crashed => (db, Crashed)
    case Ok(q) =>
      match UniquenessProblem(env, db, q, id)
      case Some(problem) => (db, Failed(problem))
      case None =>
        if id !in db.profiles then (db, Failed(NoSuchProfile))
        else (Stored(env, db, id, q), ViewOf(env, Stored(env, db, id, q), id))
  }

  function WithoutNode(relations: seq<Relation>, nodeId: int): seq<Relation> {
    if relations == [] then []
    else if relations[0].nodeId != nodeId then [relations[0]] + WithoutNode(relations[1..], nodeId)
    else WithoutNode(relations[1..], nodeId)
  }

  function OtherNodes(nodes: seq<ProxyNode>, id: int): (kept: seq<ProxyNode>)
    ensures forall n :: n in kept <==> n in nodes && n.id != id
  {
    if nodes == [] then []
    else if nodes[0].id != id then [nodes[0]] + OtherNodes(nodes[1..], id)
    else OtherNodes(nodes[1..], id)
  }

  /** A node goes together with every profile's reference to it. */
  ghost function NodeDeleted(db: Database, id: int): Database {
    if id <= 0 || !Has(db.nodes, id) then db
    else db.(relations := WithoutNode(db.relations, id), nodes := OtherNodes(db.nodes, id))
  }

  function ProfileDeleted(db: Database, id: int): Database {
    if id <= 0 then db
    else db.(profiles := db.profiles - {id}, relations := Others(db.relations, id), runtimes := db.runtimes - {id})
  }

  ghost predicate Has(nodes: seq<ProxyNode>, id: int) {
    exists n :: n in nodes && n.id == id
  }

  ghost predicate Resolvable(nodes: seq<ProxyNode>, ids: seq<int>) {
    && Distinct(ids)
    && (forall i :: 0 <= i < |ids| ==> Has(nodes, ids[i]))
  }

  ghost function NodeWith(nodes: seq<ProxyNode>, id: int): (n: ProxyNode)
    requires Has(nodes, id)
    ensures n in nodes && n.id == id
  {
    if nodes[0].id == id then nodes[0] else NodeWith(nodes[1..], id)
  }

  /** The chosen nodes in the chosen order, if no choice is repeated or unknown. */
  ghost function Resolve(nodes: seq<ProxyNode>, ids: seq<int>): Option<seq<ProxyNode>> {
    if Resolvable(nodes, ids) then Some(seq(|ids|, i requires 0 <= i < |ids| => NodeWith(nodes, ids[i]))) else None
  }

  ghost function Preview(env: Env, db: Database, p: Payload): Step<ProfilePreview, Problem> {
    match Normalize(p)
    case Failed(problem) => Failed(problem)
    case Crashed => Crashed
    case Ok(q) =>
      match Resolve(db.nodes, q.nodeIds)
      case None => Failed(NodesMissing)
      case Some(nodes) =>
        var profile := RowOf(env, 0, q, q.proxySettings);
        match RenderFragment(env.codec, profile, nodes)
        case Failed(error) => Failed(Unrendered(error))
        case Crashed => Crashed
        case Ok(fragment) => Ok(ProfilePreview(profile, q.nodeIds, nodes, fragment))
  }

  function PayloadOf(view: View): Payload {
    Payload(view.profile.name, view.profile.listenHost, view.profile.mixedPort, view.profile.socksPort,
            view.profile.httpPort, view.profile.proxySettings, view.profile.includeInRuntime, view.nodeIds)
  }

  ghost function PreviewSaved(env: Env, db: Database, id: int): Step<ProfilePreview, Problem> {
    match ViewOf(env, db, id)
    case Failed(problem) => Failed(problem)
    case Crashed => Crashed
    case Ok(view) => Preview(env, db, PayloadOf(view))
  }

  /** The snapshot of one profile's config is replaced, or its preview fails. */
  ghost function SnapshotTaken(env: Env, db: Database, id: int): (Database, Step<Fragment, Problem>) {
    match PreviewSaved(env, db, id)
    case Failed(problem) => (db, Failed(problem))
    case Crashed => (db, Crashed)
    case Ok(preview) => (db.(runtimes := db.runtimes[id := preview.fragment]), Ok(preview.fragment))
  }

  // ----- Counting found nodes decides whether all were found -----

  function Ids(ids: seq<int>): set<int> {
    set id | id in ids
  }

  lemma {:induction false} DistinctByCount(ids: seq<int>)
    ensures |Ids(ids)| <= |ids|
    ensures |Ids(ids)| == |ids| <==> Distinct(ids)
  {
    if ids != [] {
      DistinctByCount(ids[1..]);
      assert Ids(ids) == Ids(ids[1..]) + {ids[0]};
      DistinctCons(ids);
    }
  }

  lemma DistinctCons(ids: seq<int>)
    requires ids != []
    ensures Distinct(ids) <==> ids[0] !in ids[1..] && Distinct(ids[1..])
  {
  }

  function Keys(nodes: seq<ProxyNode>): set<int> {
    set n | n in nodes :: n.id
  }

  lemma {:induction false} KeysCount(nodes: seq<ProxyNode>)
    requires KeysAscend(nodes)
    ensures |Keys(nodes)| == |nodes|
  {
    if nodes != [] {
      KeysCount(nodes[1..]);
      assert Keys(nodes) == Keys(nodes[1..]) + {nodes[0].id};
      assert nodes[0].id !in Keys(nodes[1..]);
    }
  }

  lemma {:induction false} FoundAscend(nodes: seq<ProxyNode>, ids: seq<int>)
    requires KeysAscend(nodes)
    ensures KeysAscend(FindByIds(nodes, ids))
  {
    if nodes != [] {
      hide KeysAscend;
      AscendTail(nodes);
      FoundAscend(nodes[1..], ids);
      AscendCons(nodes, FindByIds(nodes[1..], ids));
    }
  }

  lemma AscendTail(nodes: seq<ProxyNode>)
    requires nodes != [] && KeysAscend(nodes)
    ensures KeysAscend(nodes[1..])
  {
  }

  lemma AscendCons(nodes: seq<ProxyNode>, kept: seq<ProxyNode>)
    requires nodes != [] && KeysAscend(nodes) && KeysAscend(kept)
    requires forall n :: n in kept ==> n in nodes[1..]
    ensures KeysAscend([nodes[0]] + kept)
  {
    assert forall n :: n in nodes[1..] ==> nodes[0].id < n.id;
    assert forall i :: 0 <= i < |kept| ==> kept[i] in nodes[1..];
  }

  lemma SubsetOfEqualSize(a: set<int>, b: set<int>)
    requires a <= b
    ensures |a| <= |b| && (|a| == |b| <==> a == b)
  {
    assert b == a + (b - a);
  }

  lemma ResolvableByCount(nodes: seq<ProxyNode>, ids: seq<int>)
    requires KeysAscend(nodes)
    ensures |FindByIds(nodes, ids)| == |ids| <==> Resolvable(nodes, ids)
  {
    hide FindByIds, KeysAscend;
    var found := FindByIds(nodes, ids);
    FoundAscend(nodes, ids);
    KeysCount(found);
    DistinctByCount(ids);
    assert Keys(found) <= Ids(ids);
    SubsetOfEqualSize(Keys(found), Ids(ids));
    AllFoundIff(nodes, ids);
  }

  lemma AllFoundIff(nodes: seq<ProxyNode>, ids: seq<int>)
    ensures Keys(FindByIds(nodes, ids)) == Ids(ids) <==>
              forall i :: 0 <= i < |ids| ==> Has(nodes, ids[i])
  {
    hide FindByIds;
    var found := FindByIds(nodes, ids);
    assert Keys(found) <= Ids(ids);
    if Keys(found) == Ids(ids) {
      forall i | 0 <= i < |ids| ensures Has(nodes, ids[i]) {
        assert ids[i] in Keys(found);
      }
    }
    if forall i :: 0 <= i < |ids| ==> Has(nodes, ids[i]) {
      forall id | id in ids ensures id in Keys(found) {
        var n :| n in nodes && n.id == id;
        assert n in found;
      }
      assert Keys(found) == Ids(ids);
    }
  }

  lemma KeyIsUnique(nodes: seq<ProxyNode>, a: ProxyNode, b: ProxyNode)
    requires KeysAscend(nodes) && a in nodes && b in nodes && a.id == b.id
    ensures a == b
  {
  }

  // ----- Operations on the tables in place -----

  class Store {
    var profiles: map<int, PortProfile>
    var relations: seq<Relation>
    var nextRelation: int
    var nodes: seq<ProxyNode>
    var runtimes: map<int, Fragment>

    ghost function Value(): Database
      reads this
    {
      Database(profiles, relations, nextRelation, nodes, runtimes)
    }

    constructor (db: Database)
      ensures Value() == db
    {
      profiles, relations, nextRelation, nodes, runtimes :=
        db.profiles, db.relations, db.nextRelation, db.nodes, db.runtimes;
    }

    method GetPortProfile(env: Env, id: int) returns (r: Step<View, Problem>)
      ensures r == ViewOf(env, Value(), id)
    {
      hide Sort, Mine, FindByIds, ParseSettings;
      if id !in profiles {
        return Failed(NoSuchProfile);
      }
      var settings := ParseSettings(env.codec, profiles[id].proxySettingsJson);
      if settings.None? {
        return Failed(UnreadableSettings);
      }
      var rows := Sort(CompareRelations, Mine(relations, id));
      var nodeIds: seq<int> := [];
      for i := 0 to |rows|
        invariant nodeIds == NodeIds(rows)[..i]
      {
        nodeIds := nodeIds + [rows[i].nodeId];
      }
      assert nodeIds == NodeIds(rows);
      return Ok(View(profiles[id].(proxySettings := settings.value), nodeIds, FindByIds(nodes, nodeIds),
                     if id in runtimes then Some(runtimes[id]) else None));
    }

    method ReplacePortProfileNodes(profileId: int, nodeIds: seq<int>)
      modifies this`relations, this`nextRelation
      ensures relations == Others(old(relations), profileId) + NewRelations(old(nextRelation), profileId, nodeIds)
      ensures nextRelation == old(nextRelation) + |nodeIds|
    {
      relations := Others(relations, profileId);
      var items: seq<Relation> := [];
      for i := 0 to |nodeIds|
        invariant items == NewRelations(nextRelation, profileId, nodeIds)[..i]
      {
        items := items + [Relation(nextRelation + i, profileId, nodeIds[i], i)];
      }
      if |items| == 0 {
        assert relations + NewRelations(nextRelation, profileId, nodeIds) == relations;
        return;
      }
      relations := relations + items;
      nextRelation := nextRelation + |items|;
    }

    method UpdatePortProfile(env: Env, id: int, p: Payload) returns (r: Step<View, Problem>)
      modifies this
      ensures (Value(), r) == Update(env, old(Value()), id, p)
    {
      hide Normalize, UniquenessProblem, ViewOf, Others, NewRelations;
      var n := NormalizePortProfilePayload(p);
      if n.Failed? {
        return Failed(n.error);
      }
      if n.Crashed? {
        return Crashed;
      }
      var normalized := n.value;
      var problem := UniquenessProblem(env, Database(profiles, relations, nextRelation, nodes, runtimes), normalized, id);
      if problem.Some? {
        return Failed(problem.value);
      }
      if id !in profiles {
        return Failed(NoSuchProfile);
      }
      SaveTransaction(env, id, normalized);
      r := GetPortProfile(env, id);
    }

    method SaveTransaction(env: Env, id: int, q: Payload)
      modifies this
      ensures Value() == Stored(env, old(Value()), id, q)
    {
      profiles := profiles[id := RowOf(env, id, q, ZERO_SETTINGS)];
      ReplacePortProfileNodes(id, q.nodeIds);
      runtimes := runtimes - {id};
    }

    method DeleteProxyNode(id: int) returns (ok: bool)
      modifies this
      ensures ok <==> id > 0 && Has(old(nodes), id)
      ensures Value() == NodeDeleted(old(Value()), id)
    {
      hide WithoutNode, OtherNodes;
      if id <= 0 || !exists n | n in nodes :: n.id == id {
        return false;
      }
      relations := WithoutNode(relations, id);
      nodes := OtherNodes(nodes, id);
      return true;
    }

    method DeletePortProfile(id: int) returns (ok: bool)
      modifies this
      ensures ok <==> id > 0
      ensures Value() == ProfileDeleted(old(Value()), id)
    {
      if id <= 0 {
        return false;
      }
      relations := Others(relations, id);
      runtimes := runtimes - {id};
      profiles := profiles - {id};
      return true;
    }

    method ResolveSelectedNodes(nodeIds: seq<int>) returns (r: Option<seq<ProxyNode>>)
      requires KeysAscend(nodes)
      ensures r == Resolve(nodes, nodeIds)
    {
      hide FindByIds, Resolvable;
      var found := FindByIds(nodes, nodeIds);
      ResolvableByCount(nodes, nodeIds);
      if |found| != |nodeIds| {
        return None;
      }
      var nodeMap: map<int, ProxyNode> := map[];
      for i := 0 to |found|
        invariant forall id :: id in nodeMap ==> nodeMap[id] in nodes && nodeMap[id].id == id
        invariant forall k :: 0 <= k < i ==> found[k].id in nodeMap
      {
        assert found[i] in found;
        nodeMap := nodeMap[found[i].id := found[i]];
      }
      ResolvedLength(nodes, nodeIds);
      var ordered: seq<ProxyNode> := [];
      for i := 0 to |nodeIds|
        invariant ordered == Resolve(nodes, nodeIds).value[..i]
      {
        ResolvedAt(nodes, nodeIds, i);
        ghost var n := NodeWith(nodes, nodeIds[i]);
        assert n in found;
        KeyIsUnique(nodes, n, nodeMap[nodeIds[i]]);
        ordered := ordered + [nodeMap[nodeIds[i]]];
      }
      assert ordered == Resolve(nodes, nodeIds).value;
      return Some(ordered);
    }

    method PreviewPortProfile(env: Env, p: Payload) returns (r: Step<ProfilePreview, Problem>)
      requires KeysAscend(nodes)
      ensures r == Preview(env, Value(), p)
    {
      hide Normalize, Resolve, RenderFragment, KeysAscend;
      var n := NormalizePortProfilePayload(p);
      if n.Failed? {
        return Failed(n.error);
      }
      if n.Crashed? {
        return Crashed;
      }
      var normalized := n.value;
      var chosen := ResolveSelectedNodes(normalized.nodeIds);
      if chosen.None? {
        return Failed(NodesMissing);
      }
      var profile := RowOf(env, 0, normalized, normalized.proxySettings);
      var rendered := RenderMihomoConfig(env.codec, profile, chosen.value);
      match rendered
      case Failed(error) => return Failed(Unrendered(error));
      case Crashed => return Crashed;
      case Ok(fragment) => return Ok(ProfilePreview(profile, normalized.nodeIds, chosen.value, fragment));
    }

    method PreviewSavedPortProfile(env: Env, id: int) returns (r: Step<ProfilePreview, Problem>)
      requires KeysAscend(nodes)
      ensures r == PreviewSaved(env, Value(), id)
    {
      hide ViewOf, Preview;
      var view := GetPortProfile(env, id);
      match view
      case Failed(problem) => return Failed(problem);
      case Crashed => return Crashed;
      case Ok(v) => r := PreviewPortProfile(env, PayloadOf(v));
    }

    method SaveRuntimePreview(env: Env, id: int) returns (r: Step<Fragment, Problem>)
      requires KeysAscend(nodes)
      modifies this`runtimes
      ensures (Value(), r) == SnapshotTaken(env, old(Value()), id)
    {
      hide PreviewSaved;
      var preview := PreviewSavedPortProfile(env, id);
      match preview
      case Failed(problem) => return Failed(problem);
      case Crashed => return Crashed;
      case Ok(p) =>
        runtimes := runtimes[id := p.fragment];
        return Ok(p.fragment);
    }
  }

  lemma ResolvedLength(nodes: seq<ProxyNode>, ids: seq<int>)
    requires Resolvable(nodes, ids)
    ensures Resolve(nodes, ids).Some? && |Resolve(nodes, ids).value| == |ids|
  {
  }

  lemma ResolvedAt(nodes: seq<ProxyNode>, ids: seq<int>, i: nat)
    requires Resolvable(nodes, ids) && i < |ids|
    ensures Has(nodes, ids[i])
    ensures Resolve(nodes, ids).Some? && |Resolve(nodes, ids).value| == |ids|
    ensures Resolve(nodes, ids).value[i] == NodeWith(nodes, ids[i])
  {
  }
}
