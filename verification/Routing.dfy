/**
 What a compiled config means and what the profiles it was compiled from mean:
 a listener leads to a group by name, the group to proxies by name.
 */
module Routing {
  import opened Outcomes
  import opened Sequences
  import opened MihomoRenderer
  import opened FinalConfig

  // ----- Meaning of a config -----

  // Where a connection ends up: the strategy and the exits it chooses from.
  datatype Destination = Destination(strategy: Group, exits: seq<Option<Metadata>>)

  function Named(name: string): Metadata -> bool {
    (m: Metadata) => "name" in m && m["name"] == Text(name)
  }

  function Exit(config: Config, name: string): Option<Metadata> {
    match Find(config.proxies, Named(name))
    case None => None
    case Some(m) => Some(m - {"name"})
  }

  function Anonymous(g: Group): Group {
    g.(name := "", proxies := [])
  }

  function Listening(e: Endpoint): Routed -> bool {
    (r: Routed) => (r.listener.host, r.listener.port) == e
  }

  function Called(name: string): Group -> bool {
    (g: Group) => g.name == name
  }

  function Exits(config: Config, names: seq<string>): seq<Option<Metadata>> {
    seq(|names|, k requires 0 <= k < |names| => Exit(config, names[k]))
  }

  function Route(config: Config, e: Endpoint): Option<Destination> {
    match Find(config.listeners, Listening(e))
    case None => None
    case Some(r) =>
      match Find(config.groups, Called(r.proxy))
      case None => None
      case Some(g) => Some(Destination(Anonymous(g), Exits(config, g.proxies)))
  }

  // ----- Meaning of the profiles -----

  function Included(profiles: seq<Option<ProfileView>>): seq<ProfileView> {
    if profiles == [] then []
    else if profiles[0].None? || !profiles[0].value.profile.includeInRuntime then Included(profiles[1..])
    else [profiles[0].value] + Included(profiles[1..])
  }

  function NodesIn(p: ProfileView): seq<ProxyNode> { p.nodes }

  function NodesOf(ps: seq<ProfileView>): seq<ProxyNode> { FlatMap(NodesIn, ps) }

  function EndpointsIn(p: ProfileView): seq<Endpoint> {
    var ports := OpenPorts(p.profile);
    seq(|ports|, k requires 0 <= k < |ports| => (ListenHost(p.profile), ports[k].1))
  }

  function EndpointsOf(ps: seq<ProfileView>): seq<Endpoint> { FlatMap(EndpointsIn, ps) }

  /** Index of the first node with this id, or the length when there is none. */
  function FirstIndex(nodes: seq<ProxyNode>, id: int): (k: nat)
    ensures k <= |nodes|
    ensures forall j :: 0 <= j < k ==> nodes[j].id != id
    ensures k < |nodes| ==> nodes[k].id == id
  {
    if nodes == [] || nodes[0].id == id then 0 else 1 + FirstIndex(nodes[1..], id)
  }

  predicate HasId(nodes: seq<ProxyNode>, id: int) {
    FirstIndex(nodes, id) < |nodes|
  }

  ghost predicate NodesDecode(codec: Codec, nodes: seq<ProxyNode>) {
    forall id :: HasId(nodes, id) ==> codec.node(nodes[FirstIndex(nodes, id)].metadataJson).Decoded?
  }

  // What a node stands for: the metadata stored with the first node of that id.
  function MetadataOf(codec: Codec, nodes: seq<ProxyNode>, id: int): Metadata
    requires HasId(nodes, id) && codec.node(nodes[FirstIndex(nodes, id)].metadataJson).Decoded?
  {
    codec.node(nodes[FirstIndex(nodes, id)].metadataJson).metadata
  }

  ghost predicate Configured(codec: Codec, p: ProfileView) {
    p.nodes != [] && ResolveSettings(codec, p.profile).Some?
  }

  // The condition a caller can check before rendering.
  ghost predicate Renderable(codec: Codec, ps: seq<ProfileView>) {
    && (forall i :: 0 <= i < |ps| ==> Configured(codec, ps[i]))
    && NodesDecode(codec, NodesOf(ps))
    && Distinct(EndpointsOf(ps))
  }

  lemma OwnNodes(ps: seq<ProfileView>, i: nat, k: nat)
    requires i < |ps| && k < |ps[i].nodes|
    ensures HasId(NodesOf(ps), ps[i].nodes[k].id)
  {
    FlatMapMembers(NodesIn, ps, ps[i].nodes[k]);
    assert ps[i].nodes[k] in NodesIn(ps[i]);
  }

  /** Where profile i sends its connections. */
  ghost function DestinationOf(codec: Codec, ps: seq<ProfileView>, i: nat): Destination
    requires i < |ps| && Configured(codec, ps[i]) && NodesDecode(codec, NodesOf(ps))
  {
    var nodes := ps[i].nodes;
    Destination(BuildStrategyGroup(ResolveSettings(codec, ps[i].profile).value, "", []),
                seq(|nodes|, k requires 0 <= k < |nodes| =>
                  OwnNodes(ps, i, k); Some(MetadataOf(codec, NodesOf(ps), nodes[k].id) - {"name"})))
  }
}
