/** The final config compiler preserves routing. */
module RoutingProof {
  import opened Outcomes
  import opened GoText
  import opened Orders
  import opened Sequences
  import opened MihomoRenderer
  import opened UniqueNames
  import opened FinalConfig
  import opened Routing

  // ----- Nodes: the pool against the nodes met so far -----

  predicate NamedFrom(m: Metadata, names: map<string, int>) {
    "name" in m && m["name"].Text? && m["name"].text in names
  }

  ghost predicate NamesApart(pool: Pool) {
    && (forall i :: 0 <= i < |pool.proxies| ==> NamedFrom(pool.proxies[i], pool.names))
    && (forall i, j :: 0 <= i < j < |pool.proxies| ==> pool.proxies[i]["name"] != pool.proxies[j]["name"])
  }

  ghost predicate BindsIds(pool: Pool, nodes: seq<ProxyNode>) {
    && (forall id :: id in pool.bindings <==> HasId(nodes, id))
    && |pool.proxies| == |pool.bindings|
  }

  function Emission(codec: Codec, pool: Pool, nodes: seq<ProxyNode>, id: int): Metadata
    requires id in pool.bindings && HasId(nodes, id)
    requires codec.node(nodes[FirstIndex(nodes, id)].metadataJson).Decoded?
  {
    MetadataOf(codec, nodes, id)["name" := Text(pool.bindings[id])]
  }

  ghost predicate EmitsAll(codec: Codec, pool: Pool, nodes: seq<ProxyNode>)
    requires BindsIds(pool, nodes) && NodesDecode(codec, nodes)
  {
    forall id :: id in pool.bindings ==> Emission(codec, pool, nodes, id) in pool.proxies
  }

  ghost predicate PoolMatches(codec: Codec, pool: Pool, nodes: seq<ProxyNode>) {
    && NodesDecode(codec, nodes)
    && BindsIds(pool, nodes)
    && NamesApart(pool)
    && EmitsAll(codec, pool, nodes)
  }

  lemma {:induction false} FirstIndexPrefix(nodes: seq<ProxyNode>, more: seq<ProxyNode>, id: int)
    ensures HasId(nodes, id) ==> FirstIndex(nodes + more, id) == FirstIndex(nodes, id)
    ensures HasId(nodes + more, id) <==> HasId(nodes, id) || HasId(more, id)
    ensures !HasId(nodes, id) ==> FirstIndex(nodes + more, id) == |nodes| + FirstIndex(more, id)
  {
    if nodes == [] {
      assert nodes + more == more;
    } else if nodes[0].id != id {
      FirstIndexPrefix(nodes[1..], more, id);
      assert (nodes + more)[1..] == nodes[1..] + more;
    }
  }

  lemma NodesDecodePrefix(codec: Codec, nodes: seq<ProxyNode>, more: seq<ProxyNode>)
    requires NodesDecode(codec, nodes + more)
    ensures NodesDecode(codec, nodes)
  {
    forall id | HasId(nodes, id)
      ensures codec.node(nodes[FirstIndex(nodes, id)].metadataJson).Decoded?
    {
      FirstIndexPrefix(nodes, more, id);
      assert HasId(nodes + more, id);
    }
  }

  lemma OneMoreNode(codec: Codec, nodes: seq<ProxyNode>, node: ProxyNode)
    requires NodesDecode(codec, nodes)
    ensures NodesDecode(codec, nodes + [node]) <==>
              HasId(nodes, node.id) || codec.node(node.metadataJson).Decoded?
    ensures forall id :: HasId(nodes, id) ==> FirstIndex(nodes + [node], id) == FirstIndex(nodes, id)
    ensures forall id :: HasId(nodes + [node], id) <==> HasId(nodes, id) || id == node.id
    ensures !HasId(nodes, node.id) ==> FirstIndex(nodes + [node], node.id) == |nodes|
  {
    forall id {
      FirstIndexPrefix(nodes, [node], id);
    }
    assert FirstIndex([node], node.id) == 0;
    assert HasId(nodes + [node], node.id);
  }

  lemma BindOldMatches(codec: Codec, pool: Pool, done: seq<ProxyNode>, node: ProxyNode)
    requires PoolMatches(codec, pool, done) && node.id in pool.bindings
    ensures PoolMatches(codec, pool, done + [node])
  {
    OneMoreNode(codec, done, node);
    forall id | id in pool.bindings
      ensures Emission(codec, pool, done + [node], id) in pool.proxies
    {
      assert Emission(codec, pool, done + [node], id) == Emission(codec, pool, done, id);
    }
  }

  lemma FreshNameStaysApart(pool: Pool, node: ProxyNode, metadata: Metadata)
    requires NamesApart(pool)
    ensures NamesApart(BindNew(pool, node, metadata))
  {
  }

  lemma BindNewGrows(pool: Pool, node: ProxyNode, metadata: Metadata)
    ensures BindNew(pool, node, metadata).bindings.Keys == pool.bindings.Keys + {node.id}
    ensures |BindNew(pool, node, metadata).proxies| == |pool.proxies| + 1
  {
  }

  lemma BindNewBinds(codec: Codec, pool: Pool, done: seq<ProxyNode>, node: ProxyNode, metadata: Metadata)
    requires NodesDecode(codec, done) && BindsIds(pool, done) && node.id !in pool.bindings
    ensures BindsIds(BindNew(pool, node, metadata), done + [node])
  {
    var pool' := BindNew(pool, node, metadata);
    BindNewGrows(pool, node, metadata);
    hide HasId, NodesDecode, BindNew;
    OneMoreNode(codec, done, node);
    assert pool'.bindings.Keys == pool.bindings.Keys + {node.id};
  }

  lemma BindNewEmits(codec: Codec, pool: Pool, done: seq<ProxyNode>, node: ProxyNode, metadata: Metadata)
    requires NodesDecode(codec, done) && BindsIds(pool, done) && EmitsAll(codec, pool, done)
    requires node.id !in pool.bindings && codec.node(node.metadataJson) == Decoded(metadata)
    requires NodesDecode(codec, done + [node]) && BindsIds(BindNew(pool, node, metadata), done + [node])
    ensures EmitsAll(codec, BindNew(pool, node, metadata), done + [node])
  {
    var pool' := BindNew(pool, node, metadata);
    var proxy := metadata["name" := Text(pool'.bindings[node.id])];
    assert pool'.proxies == pool.proxies + [proxy];
    assert !HasId(done, node.id);
    OneMoreNode(codec, done, node);
    hide FirstIndex, Reserved, BindNew;
    forall id | id in pool'.bindings
      ensures Emission(codec, pool', done + [node], id) in pool'.proxies
    {
      if id == node.id {
        assert Emission(codec, pool', done + [node], id) == proxy;
      } else {
        assert Emission(codec, pool', done + [node], id) == Emission(codec, pool, done, id);
      }
    }
  }

  lemma BindNewMatches(codec: Codec, pool: Pool, done: seq<ProxyNode>, node: ProxyNode, metadata: Metadata)
    requires PoolMatches(codec, pool, done) && node.id !in pool.bindings
    requires codec.node(node.metadataJson) == Decoded(metadata)
    ensures PoolMatches(codec, BindNew(pool, node, metadata), done + [node])
  {
    hide NodesDecode, BindsIds, NamesApart, EmitsAll, BindNew;
    OneMoreNode(codec, done, node);
    FreshNameStaysApart(pool, node, metadata);
    BindNewBinds(codec, pool, done, node, metadata);
    BindNewEmits(codec, pool, done, node, metadata);
  }

  lemma FreshKeeps(pool: Pool, node: ProxyNode, metadata: Metadata)
    requires node.id !in pool.bindings
    ensures Keeps(pool, BindNew(pool, node, metadata))
  {
  }

  lemma NamesBoundExtend(pool: Pool, pool': Pool, nodes: seq<ProxyNode>, names: seq<string>, node: ProxyNode)
    requires NamesBound(pool, nodes, names) && Keeps(pool, pool') && node.id in pool'.bindings
    ensures NamesBound(pool', nodes + [node], names + [pool'.bindings[node.id]])
  {
  }

  // Names already given out stay.
  ghost predicate Keeps(pool: Pool, pool': Pool) {
    forall id :: id in pool.bindings ==> id in pool'.bindings && pool'.bindings[id] == pool.bindings[id]
  }

  ghost predicate NamesBound(pool: Pool, nodes: seq<ProxyNode>, names: seq<string>) {
    && |names| == |nodes|
    && forall k :: 0 <= k < |nodes| ==> nodes[k].id in pool.bindings && names[k] == pool.bindings[nodes[k].id]
  }

  ghost predicate BindResult(codec: Codec, pool: Pool, all: seq<ProxyNode>, own: seq<ProxyNode>,
                             r: Step<(Pool, seq<string>), RenderError>)
  {
    && (r.Ok? <==> NodesDecode(codec, all))
    && (r.Ok? ==>
          && PoolMatches(codec, r.value.0, all)
          && Keeps(pool, r.value.0)
          && NamesBound(r.value.0, own, r.value.1))
  }

  lemma PoolKnows(codec: Codec, pool: Pool, done: seq<ProxyNode>, id: int)
    requires PoolMatches(codec, pool, done)
    ensures id in pool.bindings <==> HasId(done, id)
    ensures NodesDecode(codec, done) && Keeps(pool, pool)
  {
    hide HasId;
  }

  lemma BindResultFrom(codec: Codec, pool: Pool, pool': Pool, all: seq<ProxyNode>, own: seq<ProxyNode>,
                       r: Step<(Pool, seq<string>), RenderError>)
    requires Keeps(pool, pool') && BindResult(codec, pool', all, own, r)
    ensures BindResult(codec, pool, all, own, r)
  {
    hide PoolMatches, NamesBound, NodesDecode;
  }

  lemma BindResultStart(codec: Codec, pool: Pool, done: seq<ProxyNode>, names: seq<string>, before: seq<ProxyNode>)
    requires PoolMatches(codec, pool, done) && NamesBound(pool, before, names)
    ensures BindResult(codec, pool, done, before, Ok((pool, names)))
  {
    hide HasId;
  }

  lemma UndecodedStays(codec: Codec, done: seq<ProxyNode>, node: ProxyNode, more: seq<ProxyNode>)
    requires NodesDecode(codec, done) && !HasId(done, node.id) && !codec.node(node.metadataJson).Decoded?
    ensures !NodesDecode(codec, (done + [node]) + more)
  {
    hide NodesDecode, HasId;
    OneMoreNode(codec, done, node);
    if NodesDecode(codec, (done + [node]) + more) {
      NodesDecodePrefix(codec, done + [node], more);
    }
  }

  lemma {:induction false} BindNodesMatch(codec: Codec, pool: Pool, done: seq<ProxyNode>, names: seq<string>,
                                          before: seq<ProxyNode>, nodes: seq<ProxyNode>)
    requires PoolMatches(codec, pool, done) && NamesBound(pool, before, names)
    ensures BindResult(codec, pool, done + nodes, before + nodes, BindNodes(codec, pool, names, nodes))
    decreases |nodes|
  {
    hide PoolMatches, NamesBound, NodesDecode, HasId, BindNew, Keeps, BindResult;
    if nodes == [] {
      assert done + nodes == done && before + nodes == before;
      BindResultStart(codec, pool, done, names, before);
    } else {
      var node := nodes[0];
      PoolKnows(codec, pool, done, node.id);
      assert done + nodes == (done + [node]) + nodes[1..];
      assert before + nodes == (before + [node]) + nodes[1..];
      if node.id in pool.bindings {
        BindOldMatches(codec, pool, done, node);
        NamesBoundExtend(pool, pool, before, names, node);
        BindNodesMatch(codec, pool, done + [node], names + [pool.bindings[node.id]], before + [node], nodes[1..]);
      } else if codec.node(node.metadataJson).Decoded? {
        var metadata := codec.node(node.metadataJson).metadata;
        var pool' := BindNew(pool, node, metadata);
        BindNewMatches(codec, pool, done, node, metadata);
        FreshKeeps(pool, node, metadata);
        NamesBoundExtend(pool, pool', before, names, node);
        BindNodesMatch(codec, pool', done + [node], names + [pool'.bindings[node.id]], before + [node], nodes[1..]);
        BindResultFrom(codec, pool, pool', done + nodes, before + nodes, BindNodes(codec, pool, names, nodes));
      } else {
        UndecodedStays(codec, done, node, nodes[1..]);
        BindResultFailed(codec, pool, done + nodes, before + nodes, BindNodes(codec, pool, names, nodes));
      }
    }
  }

  lemma BindResultFailed(codec: Codec, pool: Pool, all: seq<ProxyNode>, own: seq<ProxyNode>,
                         r: Step<(Pool, seq<string>), RenderError>)
    requires !r.Ok? && !NodesDecode(codec, all)
    ensures BindResult(codec, pool, all, own, r)
  {
  }

  // ----- Listeners: the board against the endpoints opened so far -----

  function KeyOf(e: Endpoint): string { ListenerKey(e.0, e.1) }

  // The key text determines host and port: a printed port holds no colon.
  lemma KeyInjective(a: Endpoint, b: Endpoint)
    requires KeyOf(a) == KeyOf(b)
    ensures a == b
  {
    if |a.0| < |b.0| {
      KeyColon(a, b);
    } else if |b.0| < |a.0| {
      KeyColon(b, a);
    } else {
      assert KeyOf(a)[..|a.0|] == a.0 && KeyOf(b)[..|b.0|] == b.0;
      assert KeyOf(a)[|a.0| + 1..] == PrintInt(a.1) && KeyOf(b)[|b.0| + 1..] == PrintInt(b.1);
      PrintIntInjective(a.1, b.1);
    }
  }

  lemma KeyColon(a: Endpoint, b: Endpoint)
    requires |a.0| < |b.0|
    ensures KeyOf(a) != KeyOf(b)
  {
    assert KeyOf(b)[|b.0|] == ':';
    if |b.0| < |KeyOf(a)| {
      assert KeyOf(a)[|b.0|] == PrintInt(a.1)[|b.0| - |a.0| - 1];
    }
  }

  function EndpointOf(l: Listener): Endpoint { (l.host, l.port) }

  ghost predicate KeysMatch(keys: set<string>, endpoints: seq<Endpoint>) {
    && (forall e :: e in endpoints ==> KeyOf(e) in keys)
    && (forall key :: key in keys ==> exists e :: e in endpoints && key == KeyOf(e))
  }

  ghost predicate BoardMatches(board: Board, endpoints: seq<Endpoint>) {
    && |board.listeners| == |board.views| == |endpoints|
    && (forall k :: 0 <= k < |endpoints| ==> EndpointOf(board.listeners[k].listener) == endpoints[k])
    && KeysMatch(board.keys, endpoints)
    && Distinct(endpoints)
  }

  function ListenerEndpoints(ls: seq<Listener>): seq<Endpoint> {
    seq(|ls|, k requires 0 <= k < |ls| => EndpointOf(ls[k]))
  }

  ghost predicate Published(board: Board, group: string, profile: PortProfile, ls: seq<Listener>) {
    forall l :: l in ls ==>
      Routed(l, group) in board.listeners && ViewOf(profile, Routed(l, group)) in board.views
  }

  ghost predicate Grows(board: Board, board': Board) {
    board.listeners <= board'.listeners && board.views <= board'.views
  }

  lemma KeyTaken(keys: set<string>, endpoints: seq<Endpoint>, e: Endpoint)
    requires KeysMatch(keys, endpoints)
    ensures KeyOf(e) in keys <==> e in endpoints
  {
    if KeyOf(e) in keys {
      var f :| f in endpoints && KeyOf(e) == KeyOf(f);
      KeyInjective(e, f);
    }
  }

  lemma AddListenerMatches(board: Board, group: string, profile: PortProfile, endpoints: seq<Endpoint>, l: Listener)
    requires BoardMatches(board, endpoints) && EndpointOf(l) !in endpoints
    ensures BoardMatches(AddListener(board, group, profile, l), endpoints + [EndpointOf(l)])
  {
    DistinctExtend(endpoints, EndpointOf(l));
    var keys, longer := board.keys + {KeyOf(EndpointOf(l))}, endpoints + [EndpointOf(l)];
    assert KeysMatch(keys, longer) by {
      forall key | key in keys ensures exists e :: e in longer && key == KeyOf(e) {
        if key in board.keys {
          var e :| e in endpoints && key == KeyOf(e);
          assert e in longer;
        } else {
          assert EndpointOf(l) in longer;
        }
      }
    }
  }

  ghost predicate AddResult(board: Board, group: string, profile: PortProfile, all: seq<Endpoint>, ls: seq<Listener>,
                            r: Step<Board, RenderError>)
  {
    && (r.Ok? <==> Distinct(all))
    && (r.Ok? ==>
          && BoardMatches(r.value, all)
          && Grows(board, r.value)
          && Published(r.value, group, profile, ls))
  }

  lemma {:induction false} AddListenersMatch(board: Board, group: string, profile: PortProfile,
                                             endpoints: seq<Endpoint>, ls: seq<Listener>)
    requires BoardMatches(board, endpoints)
    ensures AddResult(board, group, profile, endpoints + ListenerEndpoints(ls), ls, AddListeners(board, group, profile, ls))
    decreases |ls|
  {
    var all := endpoints + ListenerEndpoints(ls);
    if ls == [] {
      assert all == endpoints;
    } else {
      var l := ls[0];
      var e := EndpointOf(l);
      assert all == (endpoints + [e]) + ListenerEndpoints(ls[1..]);
      KeyTaken(board.keys, endpoints, e);
      if e in endpoints {
        var k :| 0 <= k < |endpoints| && e == endpoints[k];
        assert all[k] == all[|endpoints|];
      } else {
        AddListenerMatches(board, group, profile, endpoints, l);
        var board' := AddListener(board, group, profile, l);
        AddListenersMatch(board', group, profile, endpoints + [e], ls[1..]);
        var r := AddListeners(board', group, profile, ls[1..]);
        if r.Ok? {
          AddedIsPublished(board, group, profile, ls, r.value);
        }
      }
    }
  }

  lemma AddedIsPublished(board: Board, group: string, profile: PortProfile, ls: seq<Listener>, final: Board)
    requires ls != []
    requires Grows(AddListener(board, group, profile, ls[0]), final)
    requires Published(final, group, profile, ls[1..])
    ensures Grows(board, final) && Published(final, group, profile, ls)
  {
    var r := Routed(ls[0], group);
    assert final.listeners[|board.listeners|] == r;
    assert final.views[|board.views|] == ViewOf(profile, r);
    forall l | l in ls ensures l == ls[0] || l in ls[1..] {
    }
  }

  // ----- The whole invariant -----

  ghost predicate GroupMatches(codec: Codec, b: Build, p: ProfileView, g: Group) {
    && Configured(codec, p)
    && g.name in b.groupNames
    && NamesBound(b.pool, p.nodes, g.proxies)
    && g == BuildStrategyGroup(ResolveSettings(codec, p.profile).value, g.name, g.proxies)
    && Published(b.board, g.name, p.profile, BuildListeners(p.profile, ResolveSettings(codec, p.profile).value))
  }

  ghost predicate GroupsMatch(codec: Codec, b: Build, ps: seq<ProfileView>) {
    && |b.groups| == |ps|
    && (forall i :: 0 <= i < |ps| ==> GroupMatches(codec, b, ps[i], b.groups[i]))
    && (forall i, j :: 0 <= i < j < |ps| ==> b.groups[i].name != b.groups[j].name)
  }

  ghost predicate Matches(codec: Codec, b: Build, ps: seq<ProfileView>) {
    && PoolMatches(codec, b.pool, NodesOf(ps))
    && BoardMatches(b.board, EndpointsOf(ps))
    && GroupsMatch(codec, b, ps)
  }

  lemma MatchesRenderable(codec: Codec, b: Build, ps: seq<ProfileView>)
    requires Matches(codec, b, ps)
    ensures Renderable(codec, ps)
  {
  }

  lemma RenderablePrefix(codec: Codec, ps: seq<ProfileView>, more: seq<ProfileView>)
    requires Renderable(codec, ps + more)
    ensures Renderable(codec, ps)
  {
    FlatMapPrefix(NodesIn, ps, more);
    FlatMapPrefix(EndpointsIn, ps, more);
    var nodes, all := NodesOf(ps), NodesOf(ps + more);
    assert all == nodes + all[|nodes|..];
    NodesDecodePrefix(codec, nodes, all[|nodes|..]);
    forall i | 0 <= i < |ps| ensures Configured(codec, ps[i]) {
      assert (ps + more)[i] == ps[i];
    }
  }

  lemma RenderableExtend(codec: Codec, done: seq<ProfileView>, p: ProfileView)
    requires Renderable(codec, done)
    ensures Renderable(codec, done + [p]) <==>
              && Configured(codec, p)
              && NodesDecode(codec, NodesOf(done) + p.nodes)
              && Distinct(EndpointsOf(done) + EndpointsIn(p))
  {
  }

  lemma OneMoreProfile(done: seq<ProfileView>, p: ProfileView)
    ensures NodesOf(done + [p]) == NodesOf(done) + p.nodes
    ensures EndpointsOf(done + [p]) == EndpointsOf(done) + EndpointsIn(p)
  {
  }

  lemma ListenerEndpointsAreOpenPorts(p: ProfileView, settings: ProxySettings)
    ensures ListenerEndpoints(BuildListeners(p.profile, settings)) == EndpointsIn(p)
  {
    ListenersAreOpenPorts(p.profile, settings);
  }

  ghost predicate GroupWorks(codec: Codec, pool: Pool, board: Board, p: ProfileView, group: string,
                             names: seq<string>) {
    && Configured(codec, p)
    && NamesBound(pool, p.nodes, names)
    && Published(board, group, p.profile, BuildListeners(p.profile, ResolveSettings(codec, p.profile).value))
  }

  lemma GroupsKeepMatching(codec: Codec, b: Build, b': Build, done: seq<ProfileView>, p: ProfileView, group: string,
                           names: seq<string>)
    requires GroupsMatch(codec, b, done)
    requires Keeps(b.pool, b'.pool) && Grows(b.board, b'.board)
    requires group !in b.groupNames && b'.groupNames.Keys == b.groupNames.Keys + {group}
    requires GroupWorks(codec, b'.pool, b'.board, p, group, names)
    requires b'.groups == b.groups + [BuildStrategyGroup(ResolveSettings(codec, p.profile).value, group, names)]
    ensures GroupsMatch(codec, b', done + [p])
  {
    var ps := done + [p];
    forall i | 0 <= i < |ps| ensures GroupMatches(codec, b', ps[i], b'.groups[i]) {
      if i < |done| {
        assert GroupMatches(codec, b, done[i], b.groups[i]);
        assert Published(b'.board, b.groups[i].name, done[i].profile,
                         BuildListeners(done[i].profile, ResolveSettings(codec, done[i].profile).value));
      }
    }
    forall i, j | 0 <= i < j < |ps| ensures b'.groups[i].name != b'.groups[j].name {
      assert GroupMatches(codec, b, done[i], b.groups[i]);
    }
  }

  // Binding a configured profile's nodes and adding its listeners.
  lemma PartsMatch(codec: Codec, b: Build, done: seq<ProfileView>, p: ProfileView, settings: ProxySettings,
                   group: string)
    requires PoolMatches(codec, b.pool, NodesOf(done)) && BoardMatches(b.board, EndpointsOf(done))
    ensures BindResult(codec, b.pool, NodesOf(done) + p.nodes, p.nodes, BindNodes(codec, b.pool, [], p.nodes))
    ensures AddResult(b.board, group, p.profile, EndpointsOf(done) + EndpointsIn(p), BuildListeners(p.profile, settings),
                      AddListeners(b.board, group, p.profile, BuildListeners(p.profile, settings)))
  {
    assert NamesBound(b.pool, [], []);
    hide PoolMatches, BoardMatches, NamesBound, BindResult, AddResult;
    hide BindNodes, AddListeners, BuildListeners, ListenerEndpoints, NodesOf, EndpointsOf, EndpointsIn;
    BindNodesMatch(codec, b.pool, NodesOf(done), [], [], p.nodes);
    assert [] + p.nodes == p.nodes;
    AddListenersMatch(b.board, group, p.profile, EndpointsOf(done), BuildListeners(p.profile, settings));
    ListenerEndpointsAreOpenPorts(p, settings);
  }

  lemma AddProfileParts(codec: Codec, b: Build, p: ProfileView, group: string)
    requires group == Reserved(b.groupNames, GroupBase(p.profile)).0
    ensures AddProfile(codec, b, p).Ok? <==>
              && Configured(codec, p)
              && BindNodes(codec, b.pool, [], p.nodes).Ok?
              && AddListeners(b.board, group, p.profile,
                              BuildListeners(p.profile, ResolveSettings(codec, p.profile).value)).Ok?
  {
    hide Reserved, ResolveSettings, BuildListeners, BuildStrategyGroup, BindNodes, AddListeners;
  }

  lemma AddProfileOkIff(codec: Codec, b: Build, done: seq<ProfileView>, p: ProfileView)
    requires Matches(codec, b, done)
    ensures AddProfile(codec, b, p).Ok? <==> Renderable(codec, done + [p])
  {
    MatchesRenderable(codec, b, done);
    RenderableExtend(codec, done, p);
    var group := Reserved(b.groupNames, GroupBase(p.profile)).0;
    AddProfileParts(codec, b, p, group);
    hide AddProfile, Reserved, ResolveSettings, BuildListeners, BindNodes, AddListeners, Renderable;
    hide NodesOf, EndpointsOf, EndpointsIn, NodesDecode, Distinct, PoolMatches, BoardMatches, GroupsMatch;
    hide Keeps, Grows, NamesBound, Published;
    if Configured(codec, p) {
      PartsMatch(codec, b, done, p, ResolveSettings(codec, p.profile).value, group);
    }
  }

  lemma AddProfileMatches(codec: Codec, b: Build, done: seq<ProfileView>, p: ProfileView)
    requires Matches(codec, b, done) && AddProfile(codec, b, p).Ok?
    ensures Matches(codec, AddProfile(codec, b, p).value, done + [p])
  {
    hide Reserved, ResolveSettings, BuildListeners, BuildStrategyGroup, BindNodes, AddListeners;
    hide NodesOf, EndpointsOf, EndpointsIn, NodesDecode, Distinct, PoolMatches, BoardMatches, GroupsMatch;
    hide Keeps, Grows, NamesBound, Published;
    var settings := ResolveSettings(codec, p.profile).value;
    var (group, used) := Reserved(b.groupNames, GroupBase(p.profile));
    PartsMatch(codec, b, done, p, settings, group);
    var (pool, names) := BindNodes(codec, b.pool, [], p.nodes).value;
    var board := AddListeners(b.board, group, p.profile, BuildListeners(p.profile, settings)).value;
    assert GroupWorks(codec, pool, board, p, group, names);
    GroupsKeepMatching(codec, b, AddProfile(codec, b, p).value, done, p, group, names);
    OneMoreProfile(done, p);
  }

  lemma {:induction false} AddProfilesMatch(codec: Codec, b: Build, done: seq<ProfileView>,
                                            todo: seq<Option<ProfileView>>)
    requires Matches(codec, b, done)
    ensures AddProfiles(codec, b, todo).Ok? <==> Renderable(codec, done + Included(todo))
    ensures AddProfiles(codec, b, todo).Ok? ==> Matches(codec, AddProfiles(codec, b, todo).value, done + Included(todo))
    decreases |todo|
  {
    hide Matches, Renderable, AddProfile;
    if todo == [] {
      assert done + Included(todo) == done;
      MatchesRenderable(codec, b, done);
    } else if todo[0].None? || !todo[0].value.profile.includeInRuntime {
      AddProfilesMatch(codec, b, done, todo[1..]);
    } else {
      var p := todo[0].value;
      assert done + Included(todo) == (done + [p]) + Included(todo[1..]);
      AddProfileOkIff(codec, b, done, p);
      var r := AddProfile(codec, b, p);
      if r.Ok? {
        AddProfileMatches(codec, b, done, p);
        AddProfilesMatch(codec, r.value, done + [p], todo[1..]);
      } else if Renderable(codec, done + Included(todo)) {
        RenderablePrefix(codec, done + [p], Included(todo[1..]));
      }
    }
  }

  lemma AllProfilesMatch(codec: Codec, profiles: seq<Option<ProfileView>>)
    ensures AddProfiles(codec, EMPTY, profiles).Ok? <==> Renderable(codec, Included(profiles))
    ensures AddProfiles(codec, EMPTY, profiles).Ok? ==>
              Matches(codec, AddProfiles(codec, EMPTY, profiles).value, Included(profiles))
  {
    assert Matches(codec, EMPTY, []);
    AddProfilesMatch(codec, EMPTY, [], profiles);
    assert [] + Included(profiles) == Included(profiles);
  }

  // ----- Lookups in the finished config -----

  lemma ExitOfNode(codec: Codec, pool: Pool, config: Config, nodes: seq<ProxyNode>, id: int)
    requires PoolMatches(codec, pool, nodes) && HasId(nodes, id) && config.proxies == pool.proxies
    ensures Exit(config, pool.bindings[id]) == Some(MetadataOf(codec, nodes, id) - {"name"})
  {
    var m := Emission(codec, pool, nodes, id);
    forall y | y in pool.proxies && Named(pool.bindings[id])(y) ensures y == m {
      var i :| 0 <= i < |pool.proxies| && pool.proxies[i] == y;
      var j :| 0 <= j < |pool.proxies| && pool.proxies[j] == m;
      assert pool.proxies[i]["name"] == pool.proxies[j]["name"];
    }
    FindOnly(pool.proxies, Named(pool.bindings[id]), m);
    assert m - {"name"} == MetadataOf(codec, nodes, id) - {"name"};
  }

  lemma ListenerFound(board: Board, endpoints: seq<Endpoint>, r: Routed)
    requires BoardMatches(board, endpoints) && r in board.listeners
    ensures Find(board.listeners, Listening(EndpointOf(r.listener))) == Some(r)
  {
  }

  lemma GroupFound(codec: Codec, b: Build, ps: seq<ProfileView>, i: nat)
    requires GroupsMatch(codec, b, ps) && i < |ps|
    ensures Find(b.groups, Called(b.groups[i].name)) == Some(b.groups[i])
  {
    hide GroupMatches;
    forall y | y in b.groups && Called(b.groups[i].name)(y) ensures y == b.groups[i] {
      var m :| 0 <= m < |b.groups| && b.groups[m] == y;
    }
    FindOnly(b.groups, Called(b.groups[i].name), b.groups[i]);
  }

  lemma OwnListener(codec: Codec, b: Build, ps: seq<ProfileView>, i: nat, e: Endpoint) returns (r: Routed)
    requires GroupsMatch(codec, b, ps) && i < |ps| && e in EndpointsIn(ps[i])
    ensures r in b.board.listeners && r.proxy == b.groups[i].name && EndpointOf(r.listener) == e
  {
    assert GroupMatches(codec, b, ps[i], b.groups[i]);
    var settings := ResolveSettings(codec, ps[i].profile).value;
    var ls := BuildListeners(ps[i].profile, settings);
    ListenerEndpointsAreOpenPorts(ps[i], settings);
    var k :| 0 <= k < |EndpointsIn(ps[i])| && EndpointsIn(ps[i])[k] == e;
    assert ListenerEndpoints(ls)[k] == EndpointOf(ls[k]);
    r := Routed(ls[k], b.groups[i].name);
  }

  // The exits of profile i's group are its nodes, in its order.
  lemma OwnExits(codec: Codec, b: Build, config: Config, ps: seq<ProfileView>, i: nat)
    requires Matches(codec, b, ps) && config.proxies == b.pool.proxies && i < |ps|
    requires Configured(codec, ps[i])
    ensures Exits(config, b.groups[i].proxies) == DestinationOf(codec, ps, i).exits
  {
    var p, g := ps[i], b.groups[i];
    assert GroupMatches(codec, b, p, g);
    forall k | 0 <= k < |p.nodes|
      ensures Exits(config, g.proxies)[k] == DestinationOf(codec, ps, i).exits[k]
    {
      OwnNodes(ps, i, k);
      ExitOfNode(codec, b.pool, config, NodesOf(ps), p.nodes[k].id);
    }
  }

  // An endpoint of profile i leads to profile i's destination.
  lemma RouteOfProfile(codec: Codec, b: Build, config: Config, ps: seq<ProfileView>, i: nat, e: Endpoint)
    requires Matches(codec, b, ps)
    requires config.proxies == b.pool.proxies && config.groups == b.groups && config.listeners == b.board.listeners
    requires i < |ps| && e in EndpointsIn(ps[i])
    ensures Configured(codec, ps[i])
    ensures Route(config, e) == Some(DestinationOf(codec, ps, i))
  {
    assert GroupMatches(codec, b, ps[i], b.groups[i]);
    var r := OwnListener(codec, b, ps, i, e);
    ListenerFound(b.board, EndpointsOf(ps), r);
    GroupFound(codec, b, ps, i);
    OwnExits(codec, b, config, ps, i);
  }

  lemma NoSuchRoute(b: Build, config: Config, ps: seq<ProfileView>, e: Endpoint)
    requires BoardMatches(b.board, EndpointsOf(ps)) && config.listeners == b.board.listeners
    requires forall i :: 0 <= i < |ps| ==> e !in EndpointsIn(ps[i])
    ensures Route(config, e).None?
  {
    FlatMapMembers(EndpointsIn, ps, e);
    forall r | r in config.listeners ensures !Listening(e)(r) {
      var k :| 0 <= k < |b.board.listeners| && b.board.listeners[k] == r;
      assert EndpointsOf(ps)[k] != e;
    }
  }

  // ----- Main results -----

  // Rendering succeeds exactly on renderable, non-empty input.
  lemma RenderSucceedsIff(codec: Codec, input: Input)
    ensures Render(codec, input).Ok? <==>
              input.profiles != [] && Renderable(codec, Included(input.profiles))
  {
    AllProfilesMatch(codec, input.profiles);
  }

  lemma RenderMatches(codec: Codec, input: Input) returns (b: Build)
    requires Render(codec, input).Ok?
    ensures Matches(codec, b, Included(input.profiles)) && Render(codec, input).value == Finish(input, b)
  {
    AllProfilesMatch(codec, input.profiles);
    b := AddProfiles(codec, EMPTY, input.profiles).value;
  }

  // The compiled config routes every endpoint as the profiles do, and opens no other.
  lemma RoutingPreserved(codec: Codec, input: Input, e: Endpoint)
    requires Render(codec, input).Ok?
    ensures Renderable(codec, Included(input.profiles))
    ensures forall i :: 0 <= i < |Included(input.profiles)| && e in EndpointsIn(Included(input.profiles)[i]) ==>
              Route(Render(codec, input).value.config, e) == Some(DestinationOf(codec, Included(input.profiles), i))
    ensures forall i :: 0 <= i < |Included(input.profiles)| ==>
              Follows(ResolveSettings(codec, Included(input.profiles)[i].profile).value,
                      DestinationOf(codec, Included(input.profiles), i).strategy)
    ensures (forall p :: p in Included(input.profiles) ==> e !in EndpointsIn(p)) ==>
              Route(Render(codec, input).value.config, e).None?
  {
    hide Follows, BuildStrategyGroup;
    var b := RenderMatches(codec, input);
    var ps := Included(input.profiles);
    var config := Finish(input, b).config;
    MatchesRenderable(codec, b, ps);
    forall i | 0 <= i < |ps| && e in EndpointsIn(ps[i])
      ensures Route(config, e) == Some(DestinationOf(codec, ps, i))
    {
      RouteOfProfile(codec, b, config, ps, i, e);
    }
    forall i | 0 <= i < |ps|
      ensures Follows(ResolveSettings(codec, ps[i].profile).value, DestinationOf(codec, ps, i).strategy)
    {
      var settings := ResolveSettings(codec, ps[i].profile).value;
      GroupShape(settings, "", [], BuildStrategyGroup(settings, "", []));
    }
    if forall p :: p in ps ==> e !in EndpointsIn(p) {
      NoSuchRoute(b, config, ps, e);
    }
  }

  ghost predicate Opens(p: ProfileView, e: Endpoint) {
    var host := TrimSpace(p.profile.listenHost);
    && e.0 == (if host == "" then "127.0.0.1" else host)
    && exists kind :: PortFor(p.profile, kind) == e.1 > 0
  }

  lemma OpensIff(p: ProfileView, e: Endpoint)
    ensures e in EndpointsIn(p) <==> Opens(p, e)
  {
    hide TrimSpace;
    var ports := OpenPorts(p.profile);
    forall kind | PortFor(p.profile, kind) > 0
      ensures exists k :: 0 <= k < |ports| && ports[k] == (kind, PortFor(p.profile, kind))
    {
      var one := OpenPort(kind, PortFor(p.profile, kind));
      assert one[0] in one && one[0] in ports;
    }
    forall k | 0 <= k < |ports| ensures PortFor(p.profile, ports[k].0) == ports[k].1 > 0 {
    }
    if Opens(p, e) {
      var kind :| PortFor(p.profile, kind) == e.1 > 0;
      var k :| 0 <= k < |ports| && ports[k] == (kind, PortFor(p.profile, kind));
      assert EndpointsIn(p)[k] == e;
    }
  }

  // An endpoint leads somewhere exactly when an included profile opens it.
  lemma RouteExistsIff(codec: Codec, input: Input, e: Endpoint)
    requires Render(codec, input).Ok?
    ensures Route(Render(codec, input).value.config, e).Some? <==>
              exists p :: p in Included(input.profiles) && Opens(p, e)
  {
    hide Render, Route, Included, EndpointsIn, Opens, DestinationOf;
    RoutingPreserved(codec, input, e);
    forall p ensures e in EndpointsIn(p) <==> Opens(p, e) {
      OpensIff(p, e);
    }
    var ps := Included(input.profiles);
    if p :| p in ps && Opens(p, e) {
      var i :| 0 <= i < |ps| && ps[i] == p;
    }
  }

  // What the config takes over from its input.
  lemma ConfigKeepsInput(codec: Codec, input: Input)
    requires Render(codec, input).Ok?
    ensures var out := Render(codec, input).value;
            && out.config.allowLan == input.allowLan
            && out.config.mode == (if TrimSpace(input.mode) == "" then "rule" else TrimSpace(input.mode))
            && out.config.controller == input.controllerAddress && out.config.secret == input.controllerSecret
            && out.profileCount == |input.profiles|
  {
    hide TrimSpace, AddProfiles, Sort;
  }

  // When equal ids carry equal metadata, as rows of one table do, every exit is the
  // profile's own node, in the profile's order.
  lemma ExitsAreOwnNodes(codec: Codec, ps: seq<ProfileView>, i: nat, k: nat)
    requires Renderable(codec, ps) && i < |ps| && k < |ps[i].nodes|
    requires forall m, n :: m in NodesOf(ps) && n in NodesOf(ps) && m.id == n.id ==> m.metadataJson == n.metadataJson
    ensures codec.node(ps[i].nodes[k].metadataJson).Decoded?
    ensures |DestinationOf(codec, ps, i).exits| == |ps[i].nodes|
    ensures DestinationOf(codec, ps, i).exits[k]
         == Some(codec.node(ps[i].nodes[k].metadataJson).metadata - {"name"})
  {
    var node := ps[i].nodes[k];
    OwnNodes(ps, i, k);
    FlatMapMembers(NodesIn, ps, node);
    assert node in NodesIn(ps[i]);
    var first := NodesOf(ps)[FirstIndex(NodesOf(ps), node.id)];
    assert first in NodesOf(ps) && first.id == node.id;
  }

  // Each distinct node id is emitted once however many profiles share it, and names
  // are unique among proxies and among groups.
  lemma NodesEmittedOnce(codec: Codec, input: Input)
    requires Render(codec, input).Ok?
    ensures var config := Render(codec, input).value.config;
            && |config.proxies| == |set n | n in NodesOf(Included(input.profiles)) :: n.id|
            && |config.groups| == |Included(input.profiles)|
            && (forall i :: 0 <= i < |config.proxies| ==> "name" in config.proxies[i])
            && (forall i, j :: 0 <= i < j < |config.proxies| ==> config.proxies[i]["name"] != config.proxies[j]["name"])
            && (forall i, j :: 0 <= i < j < |config.groups| ==> config.groups[i].name != config.groups[j].name)
  {
    hide Render, NodesDecode, EmitsAll, BoardMatches, GroupMatches, Included, NodesOf;
    var b := RenderMatches(codec, input);
    var nodes := NodesOf(Included(input.profiles));
    var ids := set n | n in nodes :: n.id;
    forall id ensures id in b.pool.bindings.Keys <==> id in ids {
      if id in b.pool.bindings {
        assert nodes[FirstIndex(nodes, id)] in nodes;
      }
    }
    assert b.pool.bindings.Keys == ids;
    assert forall i :: 0 <= i < |b.pool.proxies| ==> NamedFrom(b.pool.proxies[i], b.pool.names);
  }

  lemma ViewOrderLawful()
    ensures Lawful(CompareViews)
  {
    forall a: RuntimeListener, b: RuntimeListener
      ensures -1 <= CompareViews(a, b) <= 1 && CompareViews(a, b) == -CompareViews(b, a)
    {
      LexAntisymmetric(CompareChar, a.name, b.name);
    }
    forall a: RuntimeListener, b: RuntimeListener, c: RuntimeListener
      | CompareViews(a, b) <= 0 && CompareViews(b, c) <= 0
      ensures CompareViews(a, c) <= 0
    {
      if a.port == b.port == c.port {
        LexTransitive(CompareChar, a.name, b.name, c.name);
      }
    }
  }

  // The reported listeners are the configured ones, one each, ordered by port and name.
  lemma ViewsDescribeListeners(codec: Codec, input: Input)
    requires Render(codec, input).Ok?
    ensures var out, ps := Render(codec, input).value, Included(input.profiles);
            && (forall i, j :: 0 <= i < j < |out.views| ==>
                  || out.views[i].port < out.views[j].port
                  || (out.views[i].port == out.views[j].port && CompareText(out.views[i].name, out.views[j].name) <= 0))
            && |out.views| == |out.config.listeners| == |EndpointsOf(ps)|
            && |out.config.groups| == |ps|
            && forall i :: 0 <= i < |ps| ==>
                 && Configured(codec, ps[i])
                 && forall l :: l in BuildListeners(ps[i].profile, ResolveSettings(codec, ps[i].profile).value) ==>
                      && Routed(l, out.config.groups[i].name) in out.config.listeners
                      && RuntimeListener(ps[i].profile.id, ps[i].profile.name, l.name, l.kind, l.host, l.port,
                                         out.config.groups[i].name) in out.views
  {
    hide CompareText, Sort;
    var b := RenderMatches(codec, input);
    var out, ps := Render(codec, input).value, Included(input.profiles);
    ViewOrderLawful();
    SortSorts(CompareViews, b.board.views);
    SamePermutation(out.views, b.board.views);
    forall i | 0 <= i < |ps|
      ensures Configured(codec, ps[i])
      ensures forall l :: l in BuildListeners(ps[i].profile, ResolveSettings(codec, ps[i].profile).value) ==>
                && Routed(l, out.config.groups[i].name) in out.config.listeners
                && ViewOf(ps[i].profile, Routed(l, out.config.groups[i].name)) in out.views
    {
      assert GroupMatches(codec, b, ps[i], b.groups[i]);
    }
  }
}
