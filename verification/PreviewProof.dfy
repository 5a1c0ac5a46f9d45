/** The preview renderer and the runtime compiler agree on one list of nodes. */
module PreviewProof {
  import opened Outcomes
  import opened MihomoRenderer
  import opened FinalConfig
  import opened Routing
  import opened RoutingProof

  ghost predicate AllDecode(codec: Codec, nodes: seq<ProxyNode>) {
    forall k :: 0 <= k < |nodes| ==> codec.node(nodes[k].metadataJson).Decoded?
  }

  // Proxy k is node k's metadata under node k's name.
  ghost predicate ShowsNodes(codec: Codec, nodes: seq<ProxyNode>, proxies: seq<Metadata>, names: seq<string>)
    requires AllDecode(codec, nodes)
  {
    && |proxies| == |names| == |nodes|
    && forall k :: 0 <= k < |nodes| ==>
         && names[k] == nodes[k].name
         && proxies[k] == codec.node(nodes[k].metadataJson).metadata["name" := Text(nodes[k].name)]
  }

  lemma {:induction false} DecodeNodesIff(codec: Codec, proxies: seq<Metadata>, names: seq<string>,
                                          done: seq<ProxyNode>, nodes: seq<ProxyNode>)
    requires AllDecode(codec, done) && ShowsNodes(codec, done, proxies, names)
    ensures var r := DecodeNodes(codec, proxies, names, nodes);
            && (r.Ok? <==> AllDecode(codec, nodes))
            && (r.Ok? ==> AllDecode(codec, done + nodes) && ShowsNodes(codec, done + nodes, r.value.0, r.value.1))
    decreases |nodes|
  {
    if nodes == [] {
      assert done + nodes == done;
    } else {
      var node := nodes[0];
      assert AllDecode(codec, nodes) <==> codec.node(node.metadataJson).Decoded? && AllDecode(codec, nodes[1..]) by {
        assert forall k :: 0 < k < |nodes| ==> nodes[k] == nodes[1..][k - 1];
      }
      if codec.node(node.metadataJson).Decoded? {
        var metadata := codec.node(node.metadataJson).metadata;
        assert done + nodes == (done + [node]) + nodes[1..];
        DecodeNodesIff(codec, proxies + [metadata["name" := Text(node.name)]], names + [node.name], done + [node], nodes[1..]);
      }
    }
  }

  /** The preview renders exactly when there are nodes, all their metadata decodes to an
      object, and the settings parse; it then shows every node in order. */
  lemma FragmentIff(codec: Codec, profile: PortProfile, nodes: seq<ProxyNode>)
    ensures RenderFragment(codec, profile, nodes).Ok? <==>
              nodes != [] && AllDecode(codec, nodes) && ResolveSettings(codec, profile).Some?
    ensures RenderFragment(codec, profile, nodes).Ok? ==>
              var f := RenderFragment(codec, profile, nodes).value;
              ShowsNodes(codec, nodes, f.proxies, f.group.proxies)
  {
    hide ResolveSettings, DecodeNodes, BuildListeners;
    DecodeNodesIff(codec, [], [], [], nodes);
    assert [] + nodes == nodes;
  }

  // Rows of one table: equal ids carry equal metadata.
  ghost predicate OneTable(nodes: seq<ProxyNode>) {
    forall m, n :: m in nodes && n in nodes && m.id == n.id ==> m.metadataJson == n.metadataJson
  }

  lemma FragmentListens(codec: Codec, p: ProfileView, l: Listener)
    requires RenderFragment(codec, p.profile, p.nodes).Ok?
    requires l in RenderFragment(codec, p.profile, p.nodes).value.listeners
    ensures (l.host, l.port) in EndpointsIn(p)
  {
    hide DecodeNodes, ListenHost, OpenPorts, BuildListeners, BuildStrategyGroup;
    var settings := ResolveSettings(codec, p.profile).value;
    ListenersAreOpenPorts(p.profile, settings);
    var k :| 0 <= k < |BuildListeners(p.profile, settings)| && BuildListeners(p.profile, settings)[k] == l;
    assert EndpointsIn(p)[k] == (l.host, l.port);
  }

  lemma FragmentDestination(codec: Codec, ps: seq<ProfileView>, i: nat)
    requires Renderable(codec, ps) && i < |ps| && OneTable(NodesOf(ps))
    ensures RenderFragment(codec, ps[i].profile, ps[i].nodes).Ok?
    ensures var f := RenderFragment(codec, ps[i].profile, ps[i].nodes).value; var d := DestinationOf(codec, ps, i);
            && d.strategy == Anonymous(f.group)
            && |d.exits| == |f.proxies|
            && forall k :: 0 <= k < |f.proxies| ==> d.exits[k] == Some(f.proxies[k] - {"name"})
  {
    hide NodesOf, RenderFragment, MetadataOf;
    var p := ps[i];
    forall k | 0 <= k < |p.nodes|
      ensures codec.node(p.nodes[k].metadataJson).Decoded?
      ensures |DestinationOf(codec, ps, i).exits| == |p.nodes|
      ensures DestinationOf(codec, ps, i).exits[k] == Some(codec.node(p.nodes[k].metadataJson).metadata - {"name"})
    {
      ExitsAreOwnNodes(codec, ps, i, k);
    }
    FragmentIff(codec, p.profile, p.nodes);
    FragmentStrategy(codec, p);
    var f := RenderFragment(codec, p.profile, p.nodes).value;
    forall k | 0 <= k < |f.proxies| ensures f.proxies[k] - {"name"} == codec.node(p.nodes[k].metadataJson).metadata - {"name"} {
    }
    assert Configured(codec, p);
  }

  lemma FragmentStrategy(codec: Codec, p: ProfileView)
    requires RenderFragment(codec, p.profile, p.nodes).Ok?
    ensures ResolveSettings(codec, p.profile).Some?
    ensures Anonymous(RenderFragment(codec, p.profile, p.nodes).value.group)
         == BuildStrategyGroup(ResolveSettings(codec, p.profile).value, "", [])
  {
    hide DecodeNodes, BuildListeners, ResolveSettings;
  }

  // A listener leads to the strategy and, in order, the proxies a fragment shows.
  ghost predicate Leads(config: Config, f: Fragment, l: Listener) {
    var d := Route(config, (l.host, l.port));
    && d.Some?
    && d.value.strategy == Anonymous(f.group)
    && |d.value.exits| == |f.proxies|
    && forall k :: 0 <= k < |f.proxies| ==> d.value.exits[k] == Some(f.proxies[k] - {"name"})
  }

  /** For a view the compiler was given, every listener of the fragment of the same view
      leads in the compiled config where the fragment says, up to names. */
  lemma RenderersAgree(codec: Codec, input: Input, i: nat)
    requires Render(codec, input).Ok? && i < |Included(input.profiles)| && OneTable(NodesOf(Included(input.profiles)))
    ensures var p := Included(input.profiles)[i];
            RenderFragment(codec, p.profile, p.nodes).Ok?
    ensures var p := Included(input.profiles)[i]; var f := RenderFragment(codec, p.profile, p.nodes).value;
            forall l :: l in f.listeners ==> Leads(Render(codec, input).value.config, f, l)
  {
    hide Render, RenderFragment, Route, EndpointsIn, NodesOf, Included, DestinationOf;
    var ps := Included(input.profiles);
    RenderSucceedsIff(codec, input);
    FragmentDestination(codec, ps, i);
    var f := RenderFragment(codec, ps[i].profile, ps[i].nodes).value;
    forall l | l in f.listeners
      ensures Route(Render(codec, input).value.config, (l.host, l.port)) == Some(DestinationOf(codec, ps, i))
    {
      FragmentListens(codec, ps[i], l);
      RoutingPreserved(codec, input, (l.host, l.port));
    }
  }
}
