/**
 Rows and rendered pieces of a port profile (model/port_profile.go,
 mihomo_renderer.go).  JSON and YAML decoding are deterministic functions
 handed in as a Codec.
 */
module MihomoRenderer {
  import opened Outcomes
  import opened GoText

  datatype Value =
    | Text(text: string)
    | Number(number: int)
    | Flag(flag: bool)
    | List(items: seq<Value>)
    | Object(fields: map<string, Value>)

  type Metadata = map<string, Value>

  datatype ProxyNode = ProxyNode(id: int, name: string, metadataJson: string)

  datatype ProxySettings = ProxySettings(
    strategyType: string, testUrl: string, testIntervalSeconds: int,
    loadBalanceStrategy: string, loadBalanceLazy: bool, loadBalanceDisableUdp: bool,
    udpEnabled: bool, authEnabled: bool, authUsername: string, authPassword: string)

  const ZERO_SETTINGS := ProxySettings("", "", 0, "", false, false, false, false, "", "")

  const DEFAULT_TEST_URL := "https://cp.cloudflare.com/generate_204"

  const DEFAULT_SETTINGS :=
    ProxySettings("select", DEFAULT_TEST_URL, 300, "consistent-hashing", false, false, true, false, "", "")

  datatype PortProfile = PortProfile(
    id: int, name: string, listenHost: string,
    mixedPort: int, socksPort: int, httpPort: int,
    proxySettingsJson: string, proxySettings: ProxySettings,
    includeInRuntime: bool, kernelType: string)

  // Decoding can also succeed with a nil map, which the renderers then assign into.
  datatype NodeDecode = Decoded(metadata: Metadata) | NilMap | Undecodable

  datatype Codec = Codec(node: string -> NodeDecode, settings: string -> Option<ProxySettings>)

  // Crashed: assignment to an entry of a nil map.
  datatype Step<+T, +E> = Ok(value: T) | Failed(error: E) | Crashed

  function Fallback(value: string, fallback: string): string {
    if value == "" then fallback else value
  }

  function Positive(value: int, fallback: int): int {
    if value > 0 then value else fallback
  }

  function ParseSettings(codec: Codec, raw: string): Option<ProxySettings> {
    if TrimSpace(raw) == "" then Some(DEFAULT_SETTINGS) else codec.settings(TrimSpace(raw))
  }

  function ResolveSettings(codec: Codec, profile: PortProfile): Option<ProxySettings> {
    if profile.proxySettings != ZERO_SETTINGS then Some(profile.proxySettings)
    else ParseSettings(codec, profile.proxySettingsJson)
  }

  // ----- Listeners -----

  datatype Listener = Listener(
    name: string, kind: string, host: string, port: int, udp: bool,
    users: Option<(string, string)>)

  type Endpoint = (string, int)

  function ListenHost(profile: PortProfile): string {
    Fallback(TrimSpace(profile.listenHost), "127.0.0.1")
  }

  function ListenerName(profileName: string, kind: string, port: int): string {
    Fallback(TrimSpace(profileName), "port-profile") + "-" + kind + "-" + PrintInt(port)
  }

  function BuildListener(profile: PortProfile, settings: ProxySettings, kind: string, port: int): seq<Listener> {
    if port <= 0 then []
    else
      [Listener(ListenerName(profile.name, kind, port), kind, ListenHost(profile), port, settings.udpEnabled,
                if settings.authEnabled then Some((settings.authUsername, settings.authPassword)) else None)]
  }

  function BuildListeners(profile: PortProfile, settings: ProxySettings): seq<Listener> {
    BuildListener(profile, settings, "mixed", profile.mixedPort)
    + BuildListener(profile, settings, "socks", profile.socksPort)
    + BuildListener(profile, settings, "http", profile.httpPort)
  }

  function OpenPort(kind: string, port: int): seq<(string, int)> {
    if port > 0 then [(kind, port)] else []
  }

  /** The protocols and ports a profile opens, whatever its settings are. */
  function OpenPorts(profile: PortProfile): seq<(string, int)> {
    OpenPort("mixed", profile.mixedPort) + OpenPort("socks", profile.socksPort) + OpenPort("http", profile.httpPort)
  }

  // The port a profile keeps for a protocol.
  function PortFor(profile: PortProfile, kind: string): int {
    if kind == "mixed" then profile.mixedPort
    else if kind == "socks" then profile.socksPort
    else if kind == "http" then profile.httpPort
    else 0
  }

  // One listener as the profile and its settings describe it.
  predicate Describes(profile: PortProfile, settings: ProxySettings, l: Listener) {
    var host, name := TrimSpace(profile.listenHost), TrimSpace(profile.name);
    && l.port == PortFor(profile, l.kind) > 0
    && l.host == (if host == "" then "127.0.0.1" else host)
    && l.name == (if name == "" then "port-profile" else name) + "-" + l.kind + "-" + PrintInt(l.port)
    && l.udp == settings.udpEnabled
    && l.users == if settings.authEnabled then Some((settings.authUsername, settings.authPassword)) else None
  }

  function Rank(kind: string): int {
    if kind == "mixed" then 0 else if kind == "socks" then 1 else 2
  }

  /** One listener for each protocol with a positive port, in the order mixed, socks, http. */
  lemma ListenersOpenThePorts(profile: PortProfile, settings: ProxySettings)
    ensures var ls := BuildListeners(profile, settings);
            && (forall l :: l in ls ==> Describes(profile, settings, l))
            && (forall kind :: PortFor(profile, kind) > 0 ==> exists l :: l in ls && l.kind == kind)
            && (forall i, j :: 0 <= i < j < |ls| ==> Rank(ls[i].kind) < Rank(ls[j].kind))
  {
    hide TrimSpace, PrintInt;
    var ls := BuildListeners(profile, settings);
    forall kind | PortFor(profile, kind) > 0 ensures exists l :: l in ls && l.kind == kind {
      var one := BuildListener(profile, settings, kind, PortFor(profile, kind));
      assert one[0] in one && one[0] in ls;
    }
  }

  // The endpoints the compiler is judged by are those of the listeners.
  lemma ListenersAreOpenPorts(profile: PortProfile, settings: ProxySettings)
    ensures |BuildListeners(profile, settings)| == |OpenPorts(profile)|
    ensures forall k :: 0 <= k < |OpenPorts(profile)| ==>
              var l := BuildListeners(profile, settings)[k];
              (l.kind, l.port) == OpenPorts(profile)[k] && l.port > 0 && l.host == ListenHost(profile)
  {
    hide ListenHost, ListenerName;
  }

  // ----- Strategy groups -----

  datatype Group = Group(
    name: string, kind: string, proxies: seq<string>,
    url: Option<string>, interval: Option<int>,
    strategy: Option<string>, lazy: bool, disableUdp: bool)

  function NormalizeStrategyType(value: string): string {
    var t := TrimSpace(value);
    if t in {"url-test", "fallback", "load-balance"} then t else "select"
  }

  function NormalizeLoadBalance(value: string): string {
    if TrimSpace(value) == "round-robin" then "round-robin" else "consistent-hashing"
  }

  function BuildStrategyGroup(settings: ProxySettings, name: string, proxies: seq<string>): Group {
    var kind := NormalizeStrategyType(settings.strategyType);
    var probes := kind in {"url-test", "fallback", "load-balance"};
    // The second test looks at the stored text, not at the trimmed one.
    var balances := settings.strategyType == "load-balance";
    Group(name, kind, proxies,
          if probes then Some(Fallback(TrimSpace(settings.testUrl), DEFAULT_TEST_URL)) else None,
          if probes then Some(Positive(settings.testIntervalSeconds, 300)) else None,
          if balances then Some(NormalizeLoadBalance(settings.loadBalanceStrategy)) else None,
          balances && settings.loadBalanceLazy,
          balances && settings.loadBalanceDisableUdp)
  }

  // The group balances exactly when its stored text, not only its trimmed one, says so.
  lemma BalancesIff(settings: ProxySettings, name: string, proxies: seq<string>)
    ensures var group := BuildStrategyGroup(settings, name, proxies);
            (group.kind == "load-balance" && group.strategy.None?)
            <==> TrimSpace(settings.strategyType) == "load-balance" != settings.strategyType
    ensures BuildStrategyGroup(settings, name, proxies).strategy.Some? ==>
              BuildStrategyGroup(settings, name, proxies).kind == "load-balance"
  {
    hide TrimSpace;
    assert Trimmed("load-balance");
  }

  // A group as the settings describe it, but for its name and members.
  predicate Follows(settings: ProxySettings, g: Group) {
    var stored, url := TrimSpace(settings.strategyType), TrimSpace(settings.testUrl);
    && g.kind == (if stored == "url-test" || stored == "fallback" || stored == "load-balance" then stored else "select")
    && (if g.kind == "select" then g.url.None? && g.interval.None?
        else
          && g.url == Some(if url == "" then "https://cp.cloudflare.com/generate_204" else url)
          && g.interval == Some(if settings.testIntervalSeconds > 0 then settings.testIntervalSeconds else 300))
    && (if settings.strategyType == "load-balance" then
          && g.strategy.Some? && g.strategy.value in {"round-robin", "consistent-hashing"}
          && (g.strategy.value == "round-robin" <==> TrimSpace(settings.loadBalanceStrategy) == "round-robin")
          && g.lazy == settings.loadBalanceLazy && g.disableUdp == settings.loadBalanceDisableUdp
        else g.strategy.None? && !g.lazy && !g.disableUdp)
  }

  /** The built group is the one the settings describe, and they leave no choice. */
  lemma GroupShape(settings: ProxySettings, name: string, proxies: seq<string>, g: Group)
    ensures var built := BuildStrategyGroup(settings, name, proxies);
            && built.name == name && built.proxies == proxies && Follows(settings, built)
            && (Follows(settings, g) ==> g.(name := name, proxies := proxies) == built)
  {
    hide TrimSpace;
    LoadBalanceTrimmed();
  }

  lemma LoadBalanceTrimmed()
    ensures TrimSpace("load-balance") == "load-balance"
  {
  }

  // What settings a profile goes by: its own, else those of its column, else the defaults.
  lemma SettingsResolve(codec: Codec, profile: PortProfile)
    ensures profile.proxySettings != ProxySettings("", "", 0, "", false, false, false, false, "", "") ==>
              ResolveSettings(codec, profile) == Some(profile.proxySettings)
    ensures profile.proxySettings == ProxySettings("", "", 0, "", false, false, false, false, "", "") ==>
              ResolveSettings(codec, profile) ==
                if Blank(profile.proxySettingsJson) then
                  Some(ProxySettings("select", "https://cp.cloudflare.com/generate_204", 300, "consistent-hashing",
                                     false, false, true, false, "", ""))
                else codec.settings(TrimSpace(profile.proxySettingsJson))
  {
    TrimSpaceBlank(profile.proxySettingsJson);
  }

  // ----- The fragment of one profile -----

  datatype Fragment = Fragment(
    profileId: int, profileName: string, includeInRuntime: bool, kernel: string, listenHost: string,
    listeners: seq<Listener>,
    groupName: string, strategyType: string, testUrl: string, testInterval: int,
    loadBalanceMode: string, loadBalanceLazy: bool, loadBalanceDisableUdp: bool,
    proxies: seq<Metadata>, group: Group, rules: seq<string>)

  datatype FragmentError = EmptySelection | UndecodableNode(nodeName: string) | UnparsedSettings

  /** The nodes' metadata under the nodes' names, and those names. */
  function DecodeNodes(codec: Codec, proxies: seq<Metadata>, names: seq<string>, nodes: seq<ProxyNode>)
    : Step<(seq<Metadata>, seq<string>), FragmentError>
    decreases |nodes|
  {
    if nodes == [] then Ok((proxies, names))
    else
      match codec.node(nodes[0].metadataJson)
      case Undecodable => Failed(UndecodableNode(nodes[0].name))
      case NilMap => Crashed
      case Decoded(metadata) =>
        DecodeNodes(codec, proxies + [metadata["name" := Text(nodes[0].name)]], names + [nodes[0].name], nodes[1..])
  }

  function FragmentOf(profile: PortProfile, settings: ProxySettings, proxies: seq<Metadata>,
                      names: seq<string>): Fragment {
    var groupName := Fallback(TrimSpace(profile.name), "POOLX");
    Fragment(profile.id, profile.name, profile.includeInRuntime,
             Fallback(TrimSpace(profile.kernelType), "mihomo"), ListenHost(profile),
             BuildListeners(profile, settings),
             groupName, NormalizeStrategyType(settings.strategyType),
             Fallback(TrimSpace(settings.testUrl), DEFAULT_TEST_URL),
             Positive(settings.testIntervalSeconds, 300),
             NormalizeLoadBalance(settings.loadBalanceStrategy),
             settings.loadBalanceLazy, settings.loadBalanceDisableUdp,
             proxies, BuildStrategyGroup(settings, groupName, names), ["MATCH," + groupName])
  }

  function RenderFragment(codec: Codec, profile: PortProfile, nodes: seq<ProxyNode>): Step<Fragment, FragmentError> {
    if nodes == [] then Failed(EmptySelection)
    else
      match DecodeNodes(codec, [], [], nodes)
      case Failed(error) => Failed(error)
      case Crashed => Crashed
      case Ok((proxies, names)) =>
        match ResolveSettings(codec, profile)
        case None => Failed(UnparsedSettings)
        case Some(settings) => Ok(FragmentOf(profile, settings, proxies, names))
  }

  /** The fragment's own fields agree with its group, its listeners and the profile. */
  lemma FragmentFields(codec: Codec, profile: PortProfile, nodes: seq<ProxyNode>)
    requires RenderFragment(codec, profile, nodes).Ok?
    ensures ResolveSettings(codec, profile).Some?
    ensures var f, s := RenderFragment(codec, profile, nodes).value, ResolveSettings(codec, profile).value;
            var name, kernel := TrimSpace(profile.name), TrimSpace(profile.kernelType);
            && f.profileId == profile.id && f.profileName == profile.name
            && f.includeInRuntime == profile.includeInRuntime
            && f.kernel == (if kernel == "" then "mihomo" else kernel)
            && f.groupName == f.group.name == (if name == "" then "POOLX" else name)
            && f.rules == ["MATCH," + f.group.name]
            && Follows(s, f.group) && f.strategyType == f.group.kind
            && f.testUrl == (if TrimSpace(s.testUrl) == "" then "https://cp.cloudflare.com/generate_204" else TrimSpace(s.testUrl))
            && f.testInterval == (if s.testIntervalSeconds > 0 then s.testIntervalSeconds else 300)
            && f.loadBalanceMode == (if TrimSpace(s.loadBalanceStrategy) == "round-robin" then "round-robin" else "consistent-hashing")
            && f.loadBalanceLazy == s.loadBalanceLazy && f.loadBalanceDisableUdp == s.loadBalanceDisableUdp
            && f.listeners == BuildListeners(profile, s)
            && forall l :: l in f.listeners ==> l.host == f.listenHost && Describes(profile, s, l)
  {
    hide TrimSpace, DecodeNodes, ResolveSettings, BuildListeners, BuildStrategyGroup, Describes, Follows;
    var f, s := RenderFragment(codec, profile, nodes).value, ResolveSettings(codec, profile).value;
    forall name, proxies
      ensures var g := BuildStrategyGroup(s, name, proxies);
              g.name == name && Follows(s, g) && g.kind == NormalizeStrategyType(s.strategyType)
    {
      GroupShape(s, name, proxies, BuildStrategyGroup(s, name, proxies));
      FollowedKind(s);
    }
    ListenersOpenThePorts(profile, s);
    HostOfListeners(profile, s);
  }

  lemma FollowedKind(settings: ProxySettings)
    ensures forall g :: Follows(settings, g) ==> g.kind == NormalizeStrategyType(settings.strategyType)
  {
    hide TrimSpace;
  }

  lemma HostOfListeners(profile: PortProfile, settings: ProxySettings)
    ensures forall l :: l in BuildListeners(profile, settings) ==> l.host == ListenHost(profile)
  {
    hide ListenHost;
  }

  method RenderMihomoConfig(codec: Codec, profile: PortProfile,
                            nodes: seq<ProxyNode>) returns (r: Step<Fragment, FragmentError>)
    ensures r == RenderFragment(codec, profile, nodes)
  {
    hide ResolveSettings, FragmentOf;
    if |nodes| == 0 {
      return Failed(EmptySelection);
    }
    var proxies: seq<Metadata> := [];
    var names: seq<string> := [];
    for i := 0 to |nodes|
      invariant DecodeNodes(codec, proxies, names, nodes[i..]) == DecodeNodes(codec, [], [], nodes)
    {
      assert nodes[i..][1..] == nodes[i + 1..];
      var decode := codec.node(nodes[i].metadataJson);
      if decode.Undecodable? {
        return Failed(UndecodableNode(nodes[i].name));
      }
      if decode.NilMap? {
        return Crashed;
      }
      proxies := proxies + [decode.metadata["name" := Text(nodes[i].name)]];
      names := names + [nodes[i].name];
    }
    var settings := ResolveSettings(codec, profile);
    if settings.None? {
      return Failed(UnparsedSettings);
    }
    return Ok(FragmentOf(profile, settings.value, proxies, names));
  }
}
