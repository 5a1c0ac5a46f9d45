/** Why the renderers refuse, and at what. */
module Failures {
  import opened Outcomes
  import opened GoText
  import opened Sequences
  import opened MihomoRenderer
  import opened UniqueNames
  import opened FinalConfig
  import opened Routing
  import opened RoutingProof
  import opened PreviewProof
  import opened Crashes

  // ----- The preview renderer -----

  ghost predicate BadAt(codec: Codec, nodes: seq<ProxyNode>, k: nat) {
    k < |nodes| && codec.node(nodes[k].metadataJson).Undecodable? && AllDecode(codec, nodes[..k])
  }

  lemma {:induction false} DecodeStops(codec: Codec, proxies: seq<Metadata>, names: seq<string>, nodes: seq<ProxyNode>)
    returns (k: nat)
    requires DecodeNodes(codec, proxies, names, nodes).Failed?
    ensures BadAt(codec, nodes, k)
    ensures DecodeNodes(codec, proxies, names, nodes).error == UndecodableNode(nodes[k].name)
    decreases |nodes|
  {
    var node := nodes[0];
    k := 0;
    if codec.node(node.metadataJson).Decoded? {
      var metadata := codec.node(node.metadataJson).metadata;
      var rest := DecodeStops(codec, proxies + [metadata["name" := Text(node.name)]], names + [node.name], nodes[1..]);
      k := rest + 1;
      assert forall j :: 0 < j < k ==> nodes[..k][j] == nodes[1..][..rest][j - 1];
    }
  }

  /** A preview is refused for an empty choice, else for the first node that cannot be decoded
      behind nodes that can, else for settings that cannot be read. */
  lemma FragmentRefused(codec: Codec, profile: PortProfile, nodes: seq<ProxyNode>) returns (k: nat)
    requires RenderFragment(codec, profile, nodes).Failed?
    ensures match RenderFragment(codec, profile, nodes).error
            case EmptySelection => nodes == []
            case UndecodableNode(name) => BadAt(codec, nodes, k) && name == nodes[k].name
            case UnparsedSettings => nodes != [] && AllDecode(codec, nodes) && ResolveSettings(codec, profile).None?
  {
    hide ResolveSettings, AllDecode;
    k := 0;
    if nodes != [] {
      if DecodeNodes(codec, [], [], nodes).Failed? {
        k := DecodeStops(codec, [], [], nodes);
      } else {
        EmptyShown(codec);
        DecodeNodesIff(codec, [], [], [], nodes);
        assert [] + nodes == nodes;
      }
    }
  }

  lemma EmptyShown(codec: Codec)
    ensures AllDecode(codec, []) && ShowsNodes(codec, [], [], [])
  {
  }

  // ----- The runtime compiler -----

  ghost predicate NodeStops(codec: Codec, done: seq<ProxyNode>, nodes: seq<ProxyNode>, k: nat) {
    && k < |nodes|
    && codec.node(nodes[k].metadataJson).Undecodable?
    && !HasId(done + nodes[..k], nodes[k].id)
    && NodesDecode(codec, done + nodes[..k])
  }

  lemma {:induction false} BindStops(codec: Codec, pool: Pool, done: seq<ProxyNode>, names: seq<string>,
                                     nodes: seq<ProxyNode>) returns (k: nat)
    requires PoolMatches(codec, pool, done) && BindNodes(codec, pool, names, nodes).Failed?
    ensures NodeStops(codec, done, nodes, k) && BindNodes(codec, pool, names, nodes).error == BadNode(nodes[k].name)
    decreases |nodes|
  {
    hide PoolMatches, NodesDecode, HasId, BindNew;
    var node := nodes[0];
    PoolKnows(codec, pool, done, node.id);
    k := 0;
    assert done + nodes[..0] == done;
    if node.id in pool.bindings {
      BindOldMatches(codec, pool, done, node);
      var rest := BindStops(codec, pool, done + [node], names + [pool.bindings[node.id]], nodes[1..]);
      k := rest + 1;
      assert done + nodes[..k] == (done + [node]) + nodes[1..][..rest];
    } else if codec.node(node.metadataJson).Decoded? {
      var metadata := codec.node(node.metadataJson).metadata;
      var pool' := BindNew(pool, node, metadata);
      BindNewMatches(codec, pool, done, node, metadata);
      var rest := BindStops(codec, pool', done + [node], names + [pool'.bindings[node.id]], nodes[1..]);
      k := rest + 1;
      assert done + nodes[..k] == (done + [node]) + nodes[1..][..rest];
    }
  }

  // Endpoint j is the first of these that is taken already.
  ghost predicate EndpointStops(taken: seq<Endpoint>, own: seq<Endpoint>, j: nat) {
    j < |own| && Distinct(taken + own[..j]) && own[j] in taken + own[..j]
  }

  lemma EndpointStopsLater(taken: seq<Endpoint>, own: seq<Endpoint>, j: nat)
    requires own != [] && EndpointStops(taken + [own[0]], own[1..], j)
    ensures EndpointStops(taken, own, j + 1) && own[1..][j] == own[j + 1]
  {
    hide Distinct;
    assert taken + own[..j + 1] == (taken + [own[0]]) + own[1..][..j];
  }

  lemma EndpointStopsHere(board: Board, taken: seq<Endpoint>, own: seq<Endpoint>)
    requires BoardMatches(board, taken) && own != []
    ensures KeyOf(own[0]) in board.keys <==> own[0] in taken
    ensures own[0] in taken ==> EndpointStops(taken, own, 0)
  {
    KeyTaken(board.keys, taken, own[0]);
    assert taken + own[..0] == taken;
  }

  lemma {:induction false} ListenersStop(board: Board, group: string, profile: PortProfile, taken: seq<Endpoint>,
                                         ls: seq<Listener>) returns (j: nat)
    requires BoardMatches(board, taken) && AddListeners(board, group, profile, ls).Failed?
    ensures EndpointStops(taken, ListenerEndpoints(ls), j)
    ensures AddListeners(board, group, profile, ls).error == ListenerConflict(KeyOf(ListenerEndpoints(ls)[j]))
    decreases |ls|
  {
    hide BoardMatches, EndpointStops, ListenerKey, AddListener;
    var own := ListenerEndpoints(ls);
    EndpointStopsHere(board, taken, own);
    j := 0;
    if own[0] !in taken {
      AddListenerMatches(board, group, profile, taken, ls[0]);
      assert own[1..] == ListenerEndpoints(ls[1..]);
      hide ListenerEndpoints;
      var rest := ListenersStop(AddListener(board, group, profile, ls[0]), group, profile, taken + [own[0]], ls[1..]);
      EndpointStopsLater(taken, own, rest);
      j := rest + 1;
    }
  }

  // What is wrong with a profile, behind those that are in order.
  ghost predicate StopsAt(codec: Codec, done: seq<ProfileView>, p: ProfileView, error: RenderError) {
    match error
    case NoProfiles => false
    case NoNodes(name) => p.nodes == [] && name == p.profile.name
    case BadSettings => p.nodes != [] && ResolveSettings(codec, p.profile).None?
    case BadNode(name) =>
      Configured(codec, p) && exists k: nat :: NodeStops(codec, NodesOf(done), p.nodes, k) && name == p.nodes[k].name
    case ListenerConflict(key) =>
      && Configured(codec, p) && NodesDecode(codec, NodesOf(done) + p.nodes)
      && exists j: nat :: && EndpointStops(EndpointsOf(done), EndpointsIn(p), j)
                     && key == EndpointsIn(p)[j].0 + ":" + PrintInt(EndpointsIn(p)[j].1)
  }

  lemma ProfileStops(codec: Codec, b: Build, done: seq<ProfileView>, p: ProfileView)
    requires Matches(codec, b, done) && AddProfile(codec, b, p).Failed?
    ensures StopsAt(codec, done, p, AddProfile(codec, b, p).error)
  {
    hide Reserved, ResolveSettings, BuildListeners, BuildStrategyGroup, BindNodes, AddListeners, NodesOf, EndpointsOf,
         EndpointsIn, PoolMatches, BoardMatches, NodeStops, EndpointStops, NodesDecode;
    if Configured(codec, p) {
      var group := Reserved(b.groupNames, GroupBase(p.profile)).0;
      var settings := ResolveSettings(codec, p.profile).value;
      var bound := BindNodes(codec, b.pool, [], p.nodes);
      if bound.Failed? {
        var k := BindStops(codec, b.pool, NodesOf(done), [], p.nodes);
      } else {
        BoundDecodes(codec, b.pool, NodesOf(done), p.nodes);
        ListenerEndpointsAreOpenPorts(p, settings);
        var j := ListenersStop(b.board, group, p.profile, EndpointsOf(done), BuildListeners(p.profile, settings));
      }
    }
  }

  lemma BoundDecodes(codec: Codec, pool: Pool, done: seq<ProxyNode>, nodes: seq<ProxyNode>)
    requires PoolMatches(codec, pool, done) && BindNodes(codec, pool, [], nodes).Ok?
    ensures NodesDecode(codec, done + nodes)
  {
    hide PoolMatches, NodesDecode, BindNodes;
    BindNodesMatch(codec, pool, done, [], [], nodes);
    assert [] + nodes == nodes;
  }

  lemma {:induction false} ProfilesStop(codec: Codec, b: Build, done: seq<ProfileView>, todo: seq<Option<ProfileView>>)
    returns (i: nat)
    requires Matches(codec, b, done) && AddProfiles(codec, b, todo).Failed?
    ensures i < |done + Included(todo)| && Renderable(codec, (done + Included(todo))[..i])
    ensures StopsAt(codec, (done + Included(todo))[..i], (done + Included(todo))[i], AddProfiles(codec, b, todo).error)
    decreases |todo|
  {
    hide Matches, Renderable, AddProfile, StopsAt;
    if todo[0].None? || !todo[0].value.profile.includeInRuntime {
      i := ProfilesStop(codec, b, done, todo[1..]);
    } else {
      var p := todo[0].value;
      var ps := done + Included(todo);
      assert ps == (done + [p]) + Included(todo[1..]);
      if AddProfile(codec, b, p).Ok? {
        AddProfileMatches(codec, b, done, p);
        i := ProfilesStop(codec, AddProfile(codec, b, p).value, done + [p], todo[1..]);
      } else {
        i := |done|;
        assert ps[..i] == done && ps[i] == p;
        MatchesRenderable(codec, b, done);
        ProfileStops(codec, b, done, p);
      }
    }
  }

  /** Without profiles the compiler refuses for that; else it refuses for the first thing wrong
      with the first included profile that is not in order. */
  lemma RenderRefused(codec: Codec, input: Input) returns (i: nat)
    requires Render(codec, input).Failed?
    ensures Render(codec, input).error == NoProfiles <==> input.profiles == []
    ensures input.profiles != [] ==>
              && i < |Included(input.profiles)| && Renderable(codec, Included(input.profiles)[..i])
              && StopsAt(codec, Included(input.profiles)[..i], Included(input.profiles)[i], Render(codec, input).error)
  {
    hide AddProfiles, Matches, Renderable;
    i := 0;
    if input.profiles != [] {
      EmptyMatches(codec);
      i := ProfilesStop(codec, EMPTY, [], input.profiles);
      assert [] + Included(input.profiles) == Included(input.profiles);
    }
  }
}
