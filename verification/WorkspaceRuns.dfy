/**
 Runs of the workspace: any number of requests save profiles concurrently, each checking
 outside the transaction it commits in, while nodes and profiles come and go.
 */
module WorkspaceRuns {
  import opened Outcomes
  import opened MihomoRenderer
  import opened Workspace

  datatype Target = Existing(id: int) | New

  // A request between its checks and its commit; the numbers say how long the log was
  // when each check was made.
  datatype Plan = Plan(target: Target, payload: Payload, nameAt: nat, portAt: Option<nat>)

  // What happened to a profile's row.
  datatype Entry = Wrote(id: int, row: PortProfile) | Removed(id: int)

  // Keys are never handed out twice; the log is history.
  datatype World = World(db: Database, nextProfile: int, nextNode: int, plans: map<nat, Plan>, log: seq<Entry>)

  datatype Event =
    | CheckName(session: nat, target: Target, payload: Payload)
    | CheckPort(session: nat)
    | Commit(session: nat)
    | AddNode(name: string, metadataJson: string)
    | UpdateNode(node: ProxyNode)
    | DeleteNode(id: int)
    | DeleteProfile(id: int)

  function CurrentId(target: Target): int {
    match target case Existing(id) => id case New => 0
  }

  predicate Ready(w: World, session: nat) {
    session in w.plans && w.plans[session].portAt.Some? && Normalize(w.plans[session].payload).Ok?
  }

  function WrittenId(w: World, plan: Plan): int {
    match plan.target case Existing(id) => id case New => w.nextProfile
  }

  // A row that is inserted, not updated, takes the column default for a false flag.
  function AsWritten(w: World, plan: Plan): Payload {
    plan.payload.(includeInRuntime := plan.payload.includeInRuntime || WrittenId(w, plan) !in w.db.profiles)
  }

  function WrittenRow(env: Env, w: World, plan: Plan): PortProfile
    requires Normalize(AsWritten(w, plan)).Ok?
  {
    RowOf(env, WrittenId(w, plan), Normalize(AsWritten(w, plan)).value, ZERO_SETTINGS)
  }

  lemma NormalizeAsWritten(w: World, plan: Plan)
    requires Normalize(plan.payload).Ok?
    ensures Normalize(AsWritten(w, plan)).Ok?
    ensures Normalize(AsWritten(w, plan)).value
         == Normalize(plan.payload).value.(includeInRuntime := AsWritten(w, plan).includeInRuntime)
  {
  }

  function Replaced(nodes: seq<ProxyNode>, node: ProxyNode): (after: seq<ProxyNode>)
    ensures |after| == |nodes|
    ensures forall i :: 0 <= i < |nodes| ==> after[i] == if nodes[i].id == node.id then node else nodes[i]
  {
    if nodes == [] then []
    else [if nodes[0].id == node.id then node else nodes[0]] + Replaced(nodes[1..], node)
  }

  ghost function React(env: Env, w: World, e: Event): World {
    match e
    case CheckName(session, target, payload) =>
      if Normalize(payload).Ok? && !NameInUse(env, w.db, Normalize(payload).value, CurrentId(target)) then
        w.(plans := w.plans[session := Plan(target, payload, |w.log|, None)])
      else w.(plans := w.plans - {session})
    case CheckPort(session) =>
      if session !in w.plans || w.plans[session].portAt.Some? || !Normalize(w.plans[session].payload).Ok? then w
      else
        var plan := w.plans[session];
        if PortInUse(w.db, Normalize(plan.payload).value, CurrentId(plan.target))
           || (plan.target.Existing? && plan.target.id !in w.db.profiles)
        then w.(plans := w.plans - {session})
        else w.(plans := w.plans[session := plan.(portAt := Some(|w.log|))])
    case Commit(session) =>
      if !Ready(w, session) then w
      else
        var plan := w.plans[session];
        NormalizeAsWritten(w, plan);
        var id := WrittenId(w, plan);
        World(Stored(env, w.db, id, Normalize(AsWritten(w, plan)).value),
              if plan.target.New? then w.nextProfile + 1 else w.nextProfile,
              w.nextNode, w.plans - {session}, w.log + [Wrote(id, WrittenRow(env, w, plan))])
    case AddNode(name, metadataJson) =>
      w.(db := w.db.(nodes := w.db.nodes + [ProxyNode(w.nextNode, name, metadataJson)]), nextNode := w.nextNode + 1)
    case UpdateNode(node) => w.(db := w.db.(nodes := Replaced(w.db.nodes, node)))
    case DeleteNode(id) => w.(db := NodeDeleted(w.db, id))
    case DeleteProfile(id) =>
      if id <= 0 then w else w.(db := ProfileDeleted(w.db, id), log := w.log + [Removed(id)])
  }

  ghost function Run(env: Env, w: World, events: seq<Event>): World {
    if events == [] then w else React(env, Run(env, w, events[..|events| - 1]), events[|events| - 1])
  }

  // A database nobody is saving to.
  ghost predicate Idle(w: World) {
    w.plans == map[] && w.log == [] && KeysInOrder(w)
  }

  ghost predicate KeysInOrder(w: World) {
    && KeysAscend(w.db.nodes)
    && w.nextNode > 0
    && (forall n :: n in w.db.nodes ==> n.id < w.nextNode)
    && (forall id :: id in w.db.profiles ==> id < w.nextProfile)
    && (forall s :: s in w.plans && w.plans[s].portAt.Some? && w.plans[s].target.Existing? ==>
          w.plans[s].target.id < w.nextProfile)
  }

  lemma {:induction false} OtherNodesAscend(nodes: seq<ProxyNode>, id: int)
    requires KeysAscend(nodes)
    ensures KeysAscend(OtherNodes(nodes, id))
  {
    if nodes != [] {
      hide KeysAscend;
      AscendTail(nodes);
      OtherNodesAscend(nodes[1..], id);
      AscendCons(nodes, OtherNodes(nodes[1..], id));
    }
  }

  lemma ReplacedMembers(nodes: seq<ProxyNode>, node: ProxyNode, id: int)
    ensures Has(Replaced(nodes, node), id) <==> Has(nodes, id)
  {
    var after := Replaced(nodes, node);
    if Has(nodes, id) {
      var n :| n in nodes && n.id == id;
      var i :| 0 <= i < |nodes| && nodes[i] == n;
      assert after[i] in after && after[i].id == id;
    }
    if Has(after, id) {
      var n :| n in after && n.id == id;
      var i :| 0 <= i < |after| && after[i] == n;
      assert nodes[i] in nodes && nodes[i].id == id;
    }
  }

  lemma StepKeepsKeys(env: Env, w: World, e: Event)
    requires KeysInOrder(w)
    ensures KeysInOrder(React(env, w, e))
  {
    hide Normalize, NameInUse, PortInUse, Stored, KeysAscend, Ready, AsWritten;
    match e
    case AddNode(name, metadataJson) => AppendAscends(w.db.nodes, ProxyNode(w.nextNode, name, metadataJson));
    case UpdateNode(node) => ReplacedAscends(w.db.nodes, node, w.nextNode);
    case DeleteNode(id) => OtherNodesAscend(w.db.nodes, id);
    case Commit(session) => CommitKeepsKeys(env, w, session);
    case _ =>
  }

  lemma CommitShape(env: Env, w: World, session: nat)
    requires Ready(w, session)
    ensures var plan, w' := w.plans[session], React(env, w, Commit(session));
            && Normalize(AsWritten(w, plan)).Ok?
            && w'.db == Stored(env, w.db, WrittenId(w, plan), Normalize(AsWritten(w, plan)).value)
            && w'.db.profiles == w.db.profiles[WrittenId(w, plan) := WrittenRow(env, w, plan)]
            && w'.db.nodes == w.db.nodes && w'.nextNode == w.nextNode
            && w'.nextProfile == (if plan.target.New? then w.nextProfile + 1 else w.nextProfile)
            && w'.log == w.log + [Wrote(WrittenId(w, plan), WrittenRow(env, w, plan))]
            && w'.plans == w.plans - {session}
  {
    hide Normalize, Others, NewRelations, AsWritten;
    NormalizeAsWritten(w, w.plans[session]);
  }

  // The include flag is stored as it was sent exactly when it is on or the row existed.
  lemma FlagStoredIff(env: Env, w: World, session: nat)
    requires Ready(w, session)
    ensures var plan, after := w.plans[session], React(env, w, Commit(session)).db.profiles;
            var id := WrittenId(w, plan);
            && id in after
            && (after[id].includeInRuntime == plan.payload.includeInRuntime <==>
                  plan.payload.includeInRuntime || id in w.db.profiles)
  {
    hide Normalize, Stored, React;
    CommitShape(env, w, session);
    NormalizeAsWritten(w, w.plans[session]);
  }

  lemma CommitKeepsKeys(env: Env, w: World, session: nat)
    requires KeysInOrder(w)
    ensures KeysInOrder(React(env, w, Commit(session)))
  {
    if Ready(w, session) {
      hide Normalize, Stored, AsWritten, React, KeysAscend;
      CommitShape(env, w, session);
    }
  }

  lemma AppendAscends(nodes: seq<ProxyNode>, node: ProxyNode)
    requires KeysAscend(nodes) && forall n :: n in nodes ==> n.id < node.id
    ensures KeysAscend(nodes + [node])
  {
  }

  lemma ReplacedAscends(nodes: seq<ProxyNode>, node: ProxyNode, bound: int)
    requires KeysAscend(nodes) && forall n :: n in nodes ==> n.id < bound
    ensures KeysAscend(Replaced(nodes, node)) && forall n :: n in Replaced(nodes, node) ==> n.id < bound
  {
    hide KeysAscend, Replaced;
    SameKeysAscend(nodes, node);
    forall n | n in Replaced(nodes, node) ensures n.id < bound {
      ReplacedMembers(nodes, node, n.id);
      assert Has(Replaced(nodes, node), n.id);
      var m :| m in nodes && m.id == n.id;
    }
  }

  lemma SameKeysAscend(nodes: seq<ProxyNode>, node: ProxyNode)
    requires KeysAscend(nodes)
    ensures KeysAscend(Replaced(nodes, node))
  {
    var after := Replaced(nodes, node);
    assert forall i :: 0 <= i < |after| ==> after[i].id == nodes[i].id;
  }

  lemma {:induction false} RunKeepsKeys(env: Env, w: World, events: seq<Event>)
    requires KeysInOrder(w)
    ensures KeysInOrder(Run(env, w, events))
    decreases |events|
  {
    hide KeysInOrder, React;
    if events != [] {
      RunKeepsKeys(env, w, events[..|events| - 1]);
      StepKeepsKeys(env, Run(env, w, events[..|events| - 1]), events[|events| - 1]);
    }
  }
}
