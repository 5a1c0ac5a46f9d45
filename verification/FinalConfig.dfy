/**
 The final config compiler: many port profiles into one Mihomo config
 (mihomo_final.go).  The specification is a left-to-right fold over the
 profiles; the method is the source's nested loops.
 */
module FinalConfig {
  import opened Outcomes
  import opened GoText
  import opened Orders
  import opened MihomoRenderer
  import opened UniqueNames

  datatype ProfileView = ProfileView(profile: PortProfile, nodes: seq<ProxyNode>)

  datatype Input = Input(
    profiles: seq<Option<ProfileView>>, allowLan: bool, mode: string,
    controllerAddress: string, controllerSecret: string)

  datatype RenderError =
    | NoProfiles
    | NoNodes(profileName: string)
    | BadSettings
    | BadNode(nodeName: string)
    | ListenerConflict(key: string)

  datatype Routed = Routed(listener: Listener, proxy: string)

  datatype RuntimeListener = RuntimeListener(
    profileId: int, profileName: string, name: string, kind: string,
    host: string, port: int, groupName: string)

  datatype Config = Config(
    allowLan: bool, mode: string, controller: string, secret: string,
    listeners: seq<Routed>, proxies: seq<Metadata>, groups: seq<Group>)

  datatype Rendered = Rendered(config: Config, profileCount: nat, views: seq<RuntimeListener>)

  type Outcome = Step<Rendered, RenderError>

  // The compiler's working variables: what is known of the nodes, what is known of the
  // listeners, and the groups.
  datatype Pool = Pool(proxies: seq<Metadata>, bindings: map<int, string>, names: map<string, int>)

  datatype Board = Board(keys: set<string>, listeners: seq<Routed>, views: seq<RuntimeListener>)

  datatype Build = Build(pool: Pool, board: Board, groupNames: map<string, int>, groups: seq<Group>)

  const EMPTY := Build(Pool([], map[], map[]), Board({}, [], []), map[], [])

  function ListenerKey(host: string, port: int): string {
    host + ":" + PrintInt(port)
  }

  function ViewOf(profile: PortProfile, r: Routed): RuntimeListener {
    RuntimeListener(profile.id, profile.name, r.listener.name, r.listener.kind,
                    r.listener.host, r.listener.port, r.proxy)
  }

  function GroupBase(profile: PortProfile): string {
    Fallback(TrimSpace(profile.name), "POOLX")
  }

  // ----- The compiler as a fold -----

  function BindNodes(codec: Codec, pool: Pool, names: seq<string>, nodes: seq<ProxyNode>)
    : Step<(Pool, seq<string>), RenderError>
    decreases |nodes|
  {
    if nodes == [] then Ok((pool, names))
    else
      var node := nodes[0];
      if node.id in pool.bindings then BindNodes(codec, pool, names + [pool.bindings[node.id]], nodes[1..])
      else
        match codec.node(node.metadataJson)
        case Undecodable => Failed(BadNode(node.name))
        case NilMap => Crashed
        case Decoded(metadata) =>
          var pool' := BindNew(pool, node, metadata);
          BindNodes(codec, pool', names + [pool'.bindings[node.id]], nodes[1..])
  }

  function BindNew(pool: Pool, node: ProxyNode, metadata: Metadata): (pool': Pool)
    ensures node.id in pool'.bindings
  {
    var (name, used) := Reserved(pool.names, node.name);
    Pool(pool.proxies + [metadata["name" := Text(name)]], pool.bindings[node.id := name], used)
  }

  function AddListeners(board: Board, group: string, profile: PortProfile, listeners: seq<Listener>)
    : Step<Board, RenderError>
    decreases |listeners|
  {
    if listeners == [] then Ok(board)
    else
      var key := ListenerKey(listeners[0].host, listeners[0].port);
      if key in board.keys then Failed(ListenerConflict(key))
      else AddListeners(AddListener(board, group, profile, listeners[0]), group, profile, listeners[1..])
  }

  function AddListener(board: Board, group: string, profile: PortProfile, l: Listener): Board {
    Board(board.keys + {ListenerKey(l.host, l.port)},
          board.listeners + [Routed(l, group)],
          board.views + [ViewOf(profile, Routed(l, group))])
  }

  function AddProfile(codec: Codec, b: Build, p: ProfileView): Step<Build, RenderError> {
    if p.nodes == [] then Failed(NoNodes(p.profile.name))
    else
      var (group, used) := Reserved(b.groupNames, GroupBase(p.profile));
      match ResolveSettings(codec, p.profile)
      case None => Failed(BadSettings)
      case Some(settings) =>
        match BindNodes(codec, b.pool, [], p.nodes)
        case Failed(error) => Failed(error)
        case Crashed => Crashed
        case Ok((pool, names)) =>
          match AddListeners(b.board, group, p.profile, BuildListeners(p.profile, settings))
          case Failed(error) => Failed(error)
          case Crashed => Crashed
          case Ok(board) =>
            Ok(Build(pool, board, used, b.groups + [BuildStrategyGroup(settings, group, names)]))
  }

  function AddProfiles(codec: Codec, b: Build, profiles: seq<Option<ProfileView>>): Step<Build, RenderError>
    decreases |profiles|
  {
    if profiles == [] then Ok(b)
    else if profiles[0].None? || !profiles[0].value.profile.includeInRuntime then
      AddProfiles(codec, b, profiles[1..])
    else
      match AddProfile(codec, b, profiles[0].value)
      case Ok(b') => AddProfiles(codec, b', profiles[1..])
      case Failed(error) => Failed(error)
      case Crashed => Crashed
  }

  function CompareViews(a: RuntimeListener, b: RuntimeListener): int {
    if a.port != b.port then CompareInt(a.port, b.port) else CompareText(a.name, b.name)
  }

  function Finish(input: Input, b: Build): Rendered {
    Rendered(Config(input.allowLan, Fallback(TrimSpace(input.mode), "rule"),
                    input.controllerAddress, input.controllerSecret,
                    b.board.listeners, b.pool.proxies, b.groups),
             |input.profiles|, Sort(CompareViews, b.board.views))
  }

  function Render(codec: Codec, input: Input): Outcome {
    if input.profiles == [] then Failed(NoProfiles)
    else
      match AddProfiles(codec, EMPTY, input.profiles)
      case Ok(b) => Ok(Finish(input, b))
      case Failed(error) => Failed(error)
      case Crashed => Crashed
  }

  // ----- The source's loops -----

  method RenderFinalMihomoConfig(codec: Codec, input: Input) returns (out: Outcome)
    ensures out == Render(codec, input)
  {
    hide Reserved, ResolveSettings, BuildListeners, BuildStrategyGroup, ListenerKey, Sort, TrimSpace;
    if |input.profiles| == 0 {
      return Failed(NoProfiles);
    }
    var proxies: seq<Metadata> := [];
    var bindings: map<int, string> := map[];
    var usedProxyNames := new NameTable();
    var usedGroupNames := new NameTable();
    var usedListenerKeys: set<string> := {};
    var listeners: seq<Routed> := [];
    var views: seq<RuntimeListener> := [];
    var groups: seq<Group> := [];

    for i := 0 to |input.profiles|
      invariant fresh(usedProxyNames) && fresh(usedGroupNames) && usedProxyNames != usedGroupNames
      invariant AddProfiles(codec, Build(Pool(proxies, bindings, usedProxyNames.used),
                                         Board(usedListenerKeys, listeners, views),
                                         usedGroupNames.used, groups), input.profiles[i..])
             == AddProfiles(codec, EMPTY, input.profiles)
    {
      assert input.profiles[i..][1..] == input.profiles[i + 1..];
      if input.profiles[i].None? || !input.profiles[i].value.profile.includeInRuntime {
        continue;
      }
      var profile := input.profiles[i].value.profile;
      var nodes := input.profiles[i].value.nodes;
      if |nodes| == 0 {
        return Failed(NoNodes(profile.name));
      }
      var groupName := usedGroupNames.Reserve(Fallback(TrimSpace(profile.name), "POOLX"));
      var resolved := ResolveSettings(codec, profile);
      if resolved.None? {
        return Failed(BadSettings);
      }
      var settings := resolved.value;

      var names: seq<string> := [];
      ghost var pool := Pool(proxies, bindings, usedProxyNames.used);
      ghost var groupTable := usedGroupNames.used;
      for j := 0 to |nodes|
        invariant usedGroupNames.used == groupTable
        invariant BindNodes(codec, Pool(proxies, bindings, usedProxyNames.used), names, nodes[j..])
               == BindNodes(codec, pool, [], nodes)
      {
        assert nodes[j..][1..] == nodes[j + 1..];
        var node := nodes[j];
        if node.id !in bindings {
          var decode := codec.node(node.metadataJson);
          if decode.Undecodable? {
            return Failed(BadNode(node.name));
          }
          var proxyName := usedProxyNames.Reserve(node.name);
          if decode.NilMap? {
            return Crashed;
          }
          proxies := proxies + [decode.metadata["name" := Text(proxyName)]];
          bindings := bindings[node.id := proxyName];
        }
        names := names + [bindings[node.id]];
      }

      groups := groups + [BuildStrategyGroup(settings, groupName, names)];
      var built := BuildListeners(profile, settings);
      ghost var board := Board(usedListenerKeys, listeners, views);
      for k := 0 to |built|
        invariant AddListeners(Board(usedListenerKeys, listeners, views), groupName, profile, built[k..])
               == AddListeners(board, groupName, profile, built)
      {
        assert built[k..][1..] == built[k + 1..];
        var key := ListenerKey(built[k].host, built[k].port);
        if key in usedListenerKeys {
          return Failed(ListenerConflict(key));
        }
        usedListenerKeys := usedListenerKeys + {key};
        var routed := Routed(built[k], groupName);
        listeners := listeners + [routed];
        views := views + [ViewOf(profile, routed)];
      }
    }
    views := Sort(CompareViews, views);
    out := Ok(Rendered(Config(input.allowLan, Fallback(TrimSpace(input.mode), "rule"),
                              input.controllerAddress, input.controllerSecret, listeners, proxies, groups),
                       |input.profiles|, views));
  }
}
