/**
 From the tables to the runtime: every stored profile's view, the compiler over those
 that are enabled (service/runtime.go), and how that compares with the saved preview.
 */
module RuntimeOfSaved {
  import opened Outcomes
  import opened GoText
  import opened Sequences
  import opened MihomoRenderer
  import opened FinalConfig
  import opened Routing
  import opened RoutingProof
  import opened PreviewProof
  import Workspace
  import WorkspaceProof
  import WorkspaceRuns
  import WorkspacePreview

  // ----- Building the runtime config -----

  datatype RuntimeSettings = RuntimeSettings(allowLan: bool, mode: string, address: string, secret: string)

  datatype BuildProblem =
    | Unviewable(problem: Workspace.Problem) | NothingEnabled | Uncompiled(error: RenderError)
    | Unsnapped(problem: Workspace.Problem)

  // The order in which the profiles are listed: by key, the latest first.
  ghost predicate Lists(db: Workspace.Database, ids: seq<int>) {
    && (forall i, j :: 0 <= i < j < |ids| ==> ids[i] > ids[j])
    && forall id :: id in ids <==> id in db.profiles
  }

  function Enabled(view: Workspace.View): seq<Option<ProfileView>> {
    if view.profile.includeInRuntime then [Some(ProfileView(view.profile, view.nodes))] else []
  }

  /** The enabled views in order, or the first view that fails. */
  function EnabledViews(env: Workspace.Env, db: Workspace.Database, ids: seq<int>, done: seq<Option<ProfileView>>)
    : Step<seq<Option<ProfileView>>, BuildProblem>
    decreases |ids|
  {
    if ids == [] then Ok(done)
    else
      match Workspace.ViewOf(env, db, ids[0])
      case Failed(problem) => Failed(Unviewable(problem))
      case Crashed => Crashed
      case Ok(view) => EnabledViews(env, db, ids[1..], done + Enabled(view))
  }

  function InputOf(profiles: seq<Option<ProfileView>>, s: RuntimeSettings): Input {
    Input(profiles, s.allowLan, s.mode, s.address, s.secret)
  }

  // Which of the listed profiles are enabled.
  function EnabledIds(db: Workspace.Database, ids: seq<int>): (enabled: seq<int>)
    ensures forall id :: id in enabled <==> id in ids && id in db.profiles && db.profiles[id].includeInRuntime
  {
    if ids == [] then []
    else if ids[0] in db.profiles && db.profiles[ids[0]].includeInRuntime then [ids[0]] + EnabledIds(db, ids[1..])
    else EnabledIds(db, ids[1..])
  }

  function Compile(env: Workspace.Env, db: Workspace.Database, ids: seq<int>, s: RuntimeSettings)
    : Step<Rendered, BuildProblem>
  {
    match EnabledViews(env, db, ids, [])
    case Failed(problem) => Failed(problem)
    case Crashed => Crashed
    case Ok(profiles) =>
      if profiles == [] then Failed(NothingEnabled)
      else
        match Render(env.codec, InputOf(profiles, s))
        case Failed(error) => Failed(Uncompiled(error))
        case Crashed => Crashed
        case Ok(rendered) => Ok(rendered)
  }

  /** Snapshots one by one; the first preview that fails ends it, the earlier ones stay. */
  ghost function Snapshots(env: Workspace.Env, db: Workspace.Database, ids: seq<int>)
    : (Workspace.Database, Option<Step<Rendered, BuildProblem>>)
    decreases |ids|
  {
    if ids == [] then (db, None)
    else
      var (after, snapshot) := Workspace.SnapshotTaken(env, db, ids[0]);
      match snapshot
      case Failed(problem) => (after, Some(Failed(Unsnapped(problem))))
      case Crashed => (after, Some(Crashed))
      case Ok(_) => Snapshots(env, after, ids[1..])
  }

  /** The tables afterwards and the config: starting and reloading persist snapshots, the
      status page does not. */
  ghost function BuildRuntime(env: Workspace.Env, db: Workspace.Database, ids: seq<int>, s: RuntimeSettings,
                              persist: bool)
    : (Workspace.Database, Step<Rendered, BuildProblem>)
  {
    var compiled := Compile(env, db, ids, s);
    if !persist || !compiled.Ok? then (db, compiled)
    else
      var (after, stopped) := Snapshots(env, db, EnabledIds(db, ids));
      (after, if stopped.Some? then stopped.value else compiled)
  }

  method BuildFinalRuntimeConfig(env: Workspace.Env, store: Workspace.Store, ids: seq<int>, s: RuntimeSettings,
                                 persist: bool)
    returns (r: Step<Rendered, BuildProblem>)
    requires Workspace.KeysAscend(store.nodes)
    modifies store
    ensures (store.Value(), r) == BuildRuntime(env, old(store.Value()), ids, s, persist)
  {
    hide Workspace.ViewOf, Render, Workspace.SnapshotTaken;
    ghost var db := store.Value();
    var enabled: seq<Option<ProfileView>> := [];
    var enabledIds: seq<int> := [];
    for i := 0 to |ids|
      invariant store.Value() == db
      invariant EnabledViews(env, db, ids[i..], enabled) == EnabledViews(env, db, ids, [])
      invariant enabledIds + EnabledIds(db, ids[i..]) == EnabledIds(db, ids)
    {
      assert ids[i..][1..] == ids[i + 1..];
      var view := store.GetPortProfile(env, ids[i]);
      ViewHasFlag(env, db, ids[i]);
      match view
      case Failed(problem) => return Failed(Unviewable(problem));
      case Crashed => return Crashed;
      case Ok(v) =>
        enabled := enabled + Enabled(v);
        if v.profile.includeInRuntime {
          enabledIds := enabledIds + [ids[i]];
        }
    }
    if |enabled| == 0 {
      return Failed(NothingEnabled);
    }
    var rendered := RenderFinalMihomoConfig(env.codec, InputOf(enabled, s));
    match rendered
    case Failed(error) => return Failed(Uncompiled(error));
    case Crashed => return Crashed;
    case Ok(value) =>
      if persist {
        assert enabledIds == EnabledIds(db, ids);
        for i := 0 to |enabledIds|
          invariant Workspace.KeysAscend(store.nodes)
          invariant Snapshots(env, store.Value(), enabledIds[i..]) == Snapshots(env, db, enabledIds)
        {
          assert enabledIds[i..][1..] == enabledIds[i + 1..];
          var snapshot := store.SaveRuntimePreview(env, enabledIds[i]);
          match snapshot
          case Failed(problem) => return Failed(Unsnapped(problem));
          case Crashed => return Crashed;
          case Ok(_) =>
        }
      }
      return Ok(value);
  }

  lemma ViewHasFlag(env: Workspace.Env, db: Workspace.Database, id: int)
    ensures Workspace.ViewOf(env, db, id).Ok? ==>
              id in db.profiles
              && Workspace.ViewOf(env, db, id).value.profile.includeInRuntime == db.profiles[id].includeInRuntime
              && Workspace.ViewOf(env, db, id).value.nodeIds == Chosen(db, id)
  {
    hide Workspace.ListRelations, Workspace.NodeIds, Workspace.FindByIds, ParseSettings;
  }

  // The nodes a stored profile chooses.
  function Chosen(db: Workspace.Database, id: int): seq<int> {
    Workspace.NodeIds(Workspace.ListRelations(db, id))
  }

  // ----- What the compiler is given -----

  // Every view given to the compiler carries rows of the node table.
  ghost predicate FromTable(db: Workspace.Database, profiles: seq<Option<ProfileView>>) {
    forall p :: p in profiles ==> p.Some? && forall n :: n in p.value.nodes ==> n in db.nodes
  }

  lemma {:induction false} EnabledFromTable(env: Workspace.Env, db: Workspace.Database, ids: seq<int>,
                                            done: seq<Option<ProfileView>>)
    requires FromTable(db, done) && EnabledViews(env, db, ids, done).Ok?
    ensures FromTable(db, EnabledViews(env, db, ids, done).value)
    ensures done <= EnabledViews(env, db, ids, done).value
    decreases |ids|
  {
    if ids != [] {
      var view := Workspace.ViewOf(env, db, ids[0]).value;
      hide Workspace.ListRelations, Workspace.NodeIds;
      EnabledFromTable(env, db, ids[1..], done + Enabled(view));
    }
  }

  lemma {:induction false} EnabledMember(env: Workspace.Env, db: Workspace.Database, ids: seq<int>,
                                         done: seq<Option<ProfileView>>, id: int)
    requires FromTable(db, done) && EnabledViews(env, db, ids, done).Ok? && id in ids
    ensures Workspace.ViewOf(env, db, id).Ok?
    ensures var view := Workspace.ViewOf(env, db, id).value;
            view.profile.includeInRuntime ==>
              Some(ProfileView(view.profile, view.nodes)) in EnabledViews(env, db, ids, done).value
    decreases |ids|
  {
    var view := Workspace.ViewOf(env, db, ids[0]).value;
    assert FromTable(db, done + Enabled(view)) by { hide Workspace.ListRelations, Workspace.NodeIds; }
    hide FromTable, Workspace.ViewOf;
    EnabledFromTable(env, db, ids[1..], done + Enabled(view));
    if id == ids[0] {
      if view.profile.includeInRuntime {
        assert (done + Enabled(view))[|done|] == Some(ProfileView(view.profile, view.nodes));
      }
    } else {
      EnabledMember(env, db, ids[1..], done + Enabled(view), id);
    }
  }

  /** What the compiler is given of some profiles that can be viewed. */
  function ViewsOf(env: Workspace.Env, db: Workspace.Database, ids: seq<int>): seq<Option<ProfileView>> {
    if ids == [] then []
    else
      var view := Workspace.ViewOf(env, db, ids[0]);
      (if view.Ok? then [Some(ProfileView(view.value.profile, view.value.nodes))] else []) + ViewsOf(env, db, ids[1..])
  }

  ghost predicate AllViewable(env: Workspace.Env, db: Workspace.Database, ids: seq<int>) {
    forall id :: id in ids ==> Workspace.ViewOf(env, db, id).Ok?
  }

  lemma ViewableCons(env: Workspace.Env, db: Workspace.Database, ids: seq<int>)
    requires ids != []
    ensures AllViewable(env, db, ids) <==> Workspace.ViewOf(env, db, ids[0]).Ok? && AllViewable(env, db, ids[1..])
  {
    hide Workspace.ViewOf;
    assert forall id :: id in ids <==> id == ids[0] || id in ids[1..];
  }

  lemma NoneEnabled(env: Workspace.Env, db: Workspace.Database, done: seq<Option<ProfileView>>)
    ensures AllViewable(env, db, []) && done + ViewsOf(env, db, EnabledIds(db, [])) == done
  {
  }

  // The compiler is given the enabled profiles, in the order listed.
  lemma {:induction false} EnabledAre(env: Workspace.Env, db: Workspace.Database, ids: seq<int>,
                                      done: seq<Option<ProfileView>>)
    ensures EnabledViews(env, db, ids, done).Ok? <==> AllViewable(env, db, ids)
    ensures EnabledViews(env, db, ids, done).Ok? ==>
              EnabledViews(env, db, ids, done).value == done + ViewsOf(env, db, EnabledIds(db, ids))
    ensures EnabledViews(env, db, ids, done) != Failed(NothingEnabled)
    decreases |ids|
  {
    hide Workspace.ViewOf, AllViewable, Enabled, ViewsOf, EnabledIds;
    if ids == [] {
      NoneEnabled(env, db, done);
    } else {
      ViewableCons(env, db, ids);
      var view := Workspace.ViewOf(env, db, ids[0]);
      if view.Ok? {
        EnabledAre(env, db, ids[1..], done + Enabled(view.value));
        EnabledFirst(env, db, ids);
      }
    }
  }

  lemma EnabledFirst(env: Workspace.Env, db: Workspace.Database, ids: seq<int>)
    requires ids != [] && Workspace.ViewOf(env, db, ids[0]).Ok?
    ensures ViewsOf(env, db, EnabledIds(db, ids))
         == Enabled(Workspace.ViewOf(env, db, ids[0]).value) + ViewsOf(env, db, EnabledIds(db, ids[1..]))
  {
    hide Workspace.ViewOf;
    ViewHasFlag(env, db, ids[0]);
    var rest := EnabledIds(db, ids[1..]);
    assert ([ids[0]] + rest)[1..] == rest;
  }

  lemma {:induction false} AllViewed(env: Workspace.Env, db: Workspace.Database, ids: seq<int>)
    requires forall id :: id in ids ==> Workspace.ViewOf(env, db, id).Ok?
    ensures |ViewsOf(env, db, ids)| == |ids|
  {
    hide Workspace.ViewOf;
    if ids != [] {
      AllViewed(env, db, ids[1..]);
    }
  }

  /** The stored profiles compile exactly when all of them can be viewed, some are enabled, and
      the compiler accepts the enabled ones; the config then carries the runtime's settings. */
  lemma CompilesIff(env: Workspace.Env, db: Workspace.Database, ids: seq<int>, s: RuntimeSettings)
    ensures Compile(env, db, ids, s).Ok? <==>
              && (forall id :: id in ids ==> Workspace.ViewOf(env, db, id).Ok?)
              && EnabledIds(db, ids) != []
              && Renderable(env.codec, Included(ViewsOf(env, db, EnabledIds(db, ids))))
    ensures Compile(env, db, ids, s) == Failed(NothingEnabled) <==>
              (forall id :: id in ids ==> Workspace.ViewOf(env, db, id).Ok?) && EnabledIds(db, ids) == []
    ensures Compile(env, db, ids, s).Ok? ==>
              var config := Compile(env, db, ids, s).value.config;
              && config.allowLan == s.allowLan && config.controller == s.address && config.secret == s.secret
              && config.mode == if TrimSpace(s.mode) == "" then "rule" else TrimSpace(s.mode)
  {
    hide Workspace.ViewOf, Render, Renderable, Included, EnabledViews, TrimSpace;
    EnabledAre(env, db, ids, []);
    if EnabledViews(env, db, ids, []).Ok? {
      var profiles := ViewsOf(env, db, EnabledIds(db, ids));
      assert [] + profiles == profiles;
      AllViewed(env, db, EnabledIds(db, ids));
      var input := InputOf(profiles, s);
      RenderSucceedsIff(env.codec, input);
      if Render(env.codec, input).Ok? {
        ConfigKeepsInput(env.codec, input);
      }
    }
  }

  lemma {:induction false} IncludedMembers(profiles: seq<Option<ProfileView>>, p: ProfileView)
    ensures p in Included(profiles) <==> p.profile.includeInRuntime && Some(p) in profiles
  {
    if profiles != [] {
      IncludedMembers(profiles[1..], p);
      assert profiles == [profiles[0]] + profiles[1..];
    }
  }

  lemma OneNodeTable(db: Workspace.Database, profiles: seq<Option<ProfileView>>)
    requires Workspace.KeysAscend(db.nodes) && FromTable(db, profiles)
    ensures OneTable(NodesOf(Included(profiles)))
  {
    hide Workspace.KeysAscend, Included;
    var ps := Included(profiles);
    forall n | n in NodesOf(ps) ensures n in db.nodes {
      FlatMapMembers(NodesIn, ps, n);
      var i :| 0 <= i < |ps| && n in NodesIn(ps[i]);
      IncludedMembers(profiles, ps[i]);
    }
    forall m, n | m in NodesOf(ps) && n in NodesOf(ps) && m.id == n.id ensures m == n {
      Workspace.KeyIsUnique(db.nodes, m, n);
    }
  }

  // ----- Chosen order and key order -----

  function Exit(codec: Codec): ProxyNode -> Option<Metadata> {
    (n: ProxyNode) =>
      match codec.node(n.metadataJson) case Decoded(metadata) => Some(metadata - {"name"}) case _ => None
  }

  /** The proxies a fragment shows, without their names. */
  function Shown(proxies: seq<Metadata>): (shown: seq<Option<Metadata>>)
    ensures |shown| == |proxies| && forall k :: 0 <= k < |proxies| ==> shown[k] == Some(proxies[k] - {"name"})
  {
    seq(|proxies|, k requires 0 <= k < |proxies| => Some(proxies[k] - {"name"}))
  }

  lemma ShownAreExits(codec: Codec, nodes: seq<ProxyNode>, proxies: seq<Metadata>, names: seq<string>)
    requires AllDecode(codec, nodes) && ShowsNodes(codec, nodes, proxies, names)
    ensures Shown(proxies) == Map(Exit(codec), nodes)
  {
    forall k | 0 <= k < |nodes| ensures Shown(proxies)[k] == Map(Exit(codec), nodes)[k] {
      assert proxies[k] - {"name"} == codec.node(nodes[k].metadataJson).metadata - {"name"};
    }
  }

  ghost predicate Ascending(ids: seq<int>) {
    forall i, j :: 0 <= i < j < |ids| ==> ids[i] < ids[j]
  }

  lemma {:induction false} AscendingUnique(a: seq<ProxyNode>, b: seq<ProxyNode>)
    requires Workspace.KeysAscend(a) && Workspace.KeysAscend(b) && forall n :: n in a <==> n in b
    ensures a == b
    decreases |a|
  {
    AscendDistinct(a);
    AscendDistinct(b);
    SameMembersPermute(a, b);
    assert |multiset(a)| == |a| && |multiset(b)| == |b|;
    if a != [] {
      assert a[0] in b;
      assert b[0] in a && b[0].id <= a[0].id && a[0].id <= b[0].id;
      Workspace.KeyIsUnique(a, a[0], b[0]);
      forall n ensures n in a[1..] <==> n in b[1..] {
        assert n in a <==> n == a[0] || n in a[1..];
        assert n in b <==> n == b[0] || n in b[1..];
        assert a[0] !in a[1..] && b[0] !in b[1..];
      }
      AscendingUnique(a[1..], b[1..]);
      assert a == [a[0]] + a[1..] && b == [b[0]] + b[1..];
    }
  }

  lemma SameNodesChosen(nodes: seq<ProxyNode>, ids: seq<int>, chosen: seq<ProxyNode>)
    requires Workspace.KeysAscend(nodes) && |chosen| == |ids|
    requires forall k :: 0 <= k < |ids| ==> chosen[k] in nodes && chosen[k].id == ids[k]
    ensures forall n :: n in chosen <==> n in Workspace.FindByIds(nodes, ids)
  {
    hide Workspace.KeysAscend;
    forall n | n in Workspace.FindByIds(nodes, ids) ensures n in chosen {
      var k :| 0 <= k < |ids| && ids[k] == n.id;
      Workspace.KeyIsUnique(nodes, n, chosen[k]);
    }
  }

  // The same rows in the order of the ids and in the order of the keys.
  lemma ChosenPermutesFound(nodes: seq<ProxyNode>, ids: seq<int>)
    requires Workspace.KeysAscend(nodes) && Workspace.Resolvable(nodes, ids)
    ensures Workspace.Resolve(nodes, ids).Some?
    ensures var chosen, found := Workspace.Resolve(nodes, ids).value, Workspace.FindByIds(nodes, ids);
            && |chosen| == |ids|
            && (forall k :: 0 <= k < |ids| ==> chosen[k].id == ids[k])
            && (forall n :: n in chosen <==> n in found)
            && multiset(found) == multiset(chosen)
            && (found == chosen <==> Ascending(ids))
  {
    hide Workspace.FindByIds;
    var chosen, found := Workspace.Resolve(nodes, ids).value, Workspace.FindByIds(nodes, ids);
    Workspace.FoundAscend(nodes, ids);
    SameNodesChosen(nodes, ids, chosen);
    assert Distinct(chosen);
    hide Workspace.Resolve, Workspace.Has, Workspace.Resolvable;
    AscendDistinct(found);
    SameMembersPermute(found, chosen);
    if Ascending(ids) {
      AscendingUnique(found, chosen);
    }
  }

  lemma AscendDistinct(nodes: seq<ProxyNode>)
    requires Workspace.KeysAscend(nodes)
    ensures Distinct(nodes)
  {
  }

  // ----- The saved preview against the runtime -----

  // The chosen nodes are told apart by their metadata.
  ghost predicate ToldApart(codec: Codec, nodes: seq<ProxyNode>) {
    forall m, n :: m in nodes && n in nodes && Exit(codec)(m) == Exit(codec)(n) ==> m == n
  }

  lemma MapInOrder(codec: Codec, a: seq<ProxyNode>, b: seq<ProxyNode>)
    requires ToldApart(codec, a) && forall n :: n in a <==> n in b
    ensures Map(Exit(codec), a) == Map(Exit(codec), b) <==> a == b
  {
    if Map(Exit(codec), a) == Map(Exit(codec), b) {
      forall k | 0 <= k < |a| ensures a[k] == b[k] {
        assert Map(Exit(codec), a)[k] == Map(Exit(codec), b)[k];
        assert a[k] in a && b[k] in a;
      }
    }
  }

  // Where the runtime sends a listener, against a preview of the same profile.
  ghost predicate Serves(config: Config, codec: Codec, preview: Workspace.ProfilePreview, found: seq<ProxyNode>,
                         l: Listener)
  {
    var d := Route(config, (l.host, l.port));
    && d.Some?
    && d.value.strategy == Anonymous(preview.fragment.group)
    && d.value.exits == Map(Exit(codec), found)
    && multiset(d.value.exits) == multiset(Shown(preview.fragment.proxies))
    && (Ascending(preview.nodeIds) ==> d.value.exits == Shown(preview.fragment.proxies))
    && (ToldApart(codec, preview.nodes) && d.value.exits == Shown(preview.fragment.proxies) ==> Ascending(preview.nodeIds))
  }

  // Two fragments of one row, over the same nodes in two orders.
  lemma FragmentsAlike(codec: Codec, a: PortProfile, b: PortProfile, chosen: seq<ProxyNode>, found: seq<ProxyNode>)
    requires a.proxySettings == b.proxySettings != ZERO_SETTINGS
    requires a.name == b.name && a.listenHost == b.listenHost
    requires a.mixedPort == b.mixedPort && a.socksPort == b.socksPort && a.httpPort == b.httpPort
    requires (forall n :: n in chosen <==> n in found) && RenderFragment(codec, b, found).Ok?
    ensures RenderFragment(codec, a, chosen).Ok?
    ensures var f, g := RenderFragment(codec, a, chosen).value, RenderFragment(codec, b, found).value;
            && f.listeners == g.listeners && Anonymous(f.group) == Anonymous(g.group)
            && Shown(f.proxies) == Map(Exit(codec), chosen) && Shown(g.proxies) == Map(Exit(codec), found)
  {
    hide RenderFragment;
    FragmentIff(codec, b, found);
    assert found != [] ==> found[0] in chosen;
    forall k | 0 <= k < |chosen| ensures codec.node(chosen[k].metadataJson).Decoded? {
      assert chosen[k] in found;
    }
    FragmentIff(codec, a, chosen);
    var f, g := RenderFragment(codec, a, chosen).value, RenderFragment(codec, b, found).value;
    ShownAreExits(codec, chosen, f.proxies, f.group.proxies);
    ShownAreExits(codec, found, g.proxies, g.group.proxies);
    FragmentStrategy(codec, ProfileView(a, chosen));
    FragmentStrategy(codec, ProfileView(b, found));
    FragmentListeners(codec, a, chosen);
    FragmentListeners(codec, b, found);
    SameListeners(a, b);
  }

  lemma FragmentListeners(codec: Codec, profile: PortProfile, nodes: seq<ProxyNode>)
    requires RenderFragment(codec, profile, nodes).Ok?
    ensures ResolveSettings(codec, profile).Some?
    ensures RenderFragment(codec, profile, nodes).value.listeners
         == BuildListeners(profile, ResolveSettings(codec, profile).value)
  {
    hide BuildListeners, DecodeNodes, ResolveSettings;
  }

  lemma SameListeners(a: PortProfile, b: PortProfile)
    requires a.name == b.name && a.listenHost == b.listenHost
    requires a.mixedPort == b.mixedPort && a.socksPort == b.socksPort && a.httpPort == b.httpPort
    ensures forall s :: BuildListeners(a, s) == BuildListeners(b, s)
  {
  }

  // A stored profile without its deleted nodes, as a payload.
  function Remaining(q: Workspace.Payload, gone: set<int>): Workspace.Payload {
    q.(nodeIds := WorkspaceProof.Without(q.nodeIds, gone))
  }

  lemma {:induction false} DistinctWithout(ids: seq<int>, gone: set<int>)
    requires Distinct(ids)
    ensures Distinct(WorkspaceProof.Without(ids, gone))
  {
    if ids != [] {
      DistinctWithout(ids[1..], gone);
      assert ids[0] !in ids[1..];
    }
  }

  lemma RemainingCanonical(q: Workspace.Payload, gone: set<int>)
    requires WorkspaceProof.Canonical(q) && Remaining(q, gone).nodeIds != []
    ensures Workspace.Normalize(Remaining(q, gone)) == Ok(Remaining(q, gone))
    ensures Distinct(Remaining(q, gone).nodeIds)
  {
    DistinctWithout(q.nodeIds, gone);
    WorkspaceProof.FixedIffCanonical(Remaining(q, gone));
    hide WorkspaceProof.Without, Workspace.Normalize, WorkspaceProof.CanonicalSettings;
  }

  // What the view of a stored profile shows of it.
  lemma StoredView(env: Workspace.Env, db: Workspace.Database, id: int, q: Workspace.Payload, gone: set<int>)
    requires WorkspaceProof.SettingsRoundTrip(env) && WorkspaceProof.Holds(env, db, id, q, gone)
    ensures Workspace.ViewOf(env, db, id).Ok?
    ensures var view := Workspace.ViewOf(env, db, id).value;
            && Workspace.PayloadOf(view) == Remaining(q, gone)
            && view.nodes == Workspace.FindByIds(db.nodes, Remaining(q, gone).nodeIds)
  {
    hide Workspace.Mine, Workspace.NodeIds, ParseSettings, Workspace.FindByIds, WorkspaceProof.Without;
    WorkspaceProof.HeldPayloadReadsBack(env, db, id, q, gone);
  }

  lemma SavedPreviewUnfolds(env: Workspace.Env, db: Workspace.Database, id: int, q: Workspace.Payload, gone: set<int>)
    requires WorkspaceProof.SettingsRoundTrip(env) && WorkspaceProof.Holds(env, db, id, q, gone)
    requires WorkspaceProof.Canonical(q) && Remaining(q, gone).nodeIds != []
    ensures var kept := Remaining(q, gone);
            Workspace.PreviewSaved(env, db, id) ==
              match Workspace.Resolve(db.nodes, kept.nodeIds)
              case None => Failed(Workspace.NodesMissing)
              case Some(nodes) =>
                var profile := Workspace.RowOf(env, 0, kept, kept.proxySettings);
                match RenderFragment(env.codec, profile, nodes)
                case Failed(error) => Failed(Workspace.Unrendered(error))
                case Crashed => Crashed
                case Ok(fragment) => Ok(Workspace.ProfilePreview(profile, kept.nodeIds, nodes, fragment))
  {
    hide Workspace.ViewOf, Workspace.Normalize, Workspace.Resolve, RenderFragment, WorkspaceProof.Without,
         WorkspaceProof.Holds, WorkspaceProof.Canonical;
    StoredView(env, db, id, q, gone);
    RemainingCanonical(q, gone);
  }

  // The compiler's answer for one enabled, stored profile.
  lemma EnabledProfileServed(env: Workspace.Env, db: Workspace.Database, ids: seq<int>, s: RuntimeSettings, id: int)
    requires Workspace.KeysAscend(db.nodes) && id in ids && Compile(env, db, ids, s).Ok?
    ensures Workspace.ViewOf(env, db, id).Ok?
    ensures var view := Workspace.ViewOf(env, db, id).value;
            view.profile.includeInRuntime ==>
              && RenderFragment(env.codec, view.profile, view.nodes).Ok?
              && var f := RenderFragment(env.codec, view.profile, view.nodes).value;
                 forall l :: l in f.listeners ==>
                   var d := Route(Compile(env, db, ids, s).value.config, (l.host, l.port));
                   d.Some? && d.value.strategy == Anonymous(f.group) && d.value.exits == Shown(f.proxies)
  {
    hide Workspace.ViewOf, Render, RenderFragment, Route, Workspace.KeysAscend, Included, NodesOf;
    var profiles := EnabledViews(env, db, ids, []).value;
    assert FromTable(db, []);
    EnabledFromTable(env, db, ids, []);
    EnabledMember(env, db, ids, [], id);
    hide EnabledViews;
    var view := Workspace.ViewOf(env, db, id).value;
    if view.profile.includeInRuntime {
      var p := ProfileView(view.profile, view.nodes);
      IncludedMembers(profiles, p);
      var i :| 0 <= i < |Included(profiles)| && Included(profiles)[i] == p;
      OneNodeTable(db, profiles);
      RenderersAgree(env.codec, InputOf(profiles, s), i);
      ExitsShown(env, Compile(env, db, ids, s).value.config, view);
    }
  }

  lemma ExitsShown(env: Workspace.Env, config: Config, view: Workspace.View)
    requires RenderFragment(env.codec, view.profile, view.nodes).Ok?
    requires var f := RenderFragment(env.codec, view.profile, view.nodes).value;
             forall l :: l in f.listeners ==> Leads(config, f, l)
    ensures var f := RenderFragment(env.codec, view.profile, view.nodes).value;
            forall l :: l in f.listeners ==>
              var d := Route(config, (l.host, l.port));
              d.Some? && d.value.strategy == Anonymous(f.group) && d.value.exits == Shown(f.proxies)
  {
    hide RenderFragment, Route;
  }

  // The compiled config sends every listener of the stored profile to its strategy and to
  // those of its nodes that are found, in the order of their keys.
  ghost predicate ServesFound(env: Workspace.Env, config: Config, view: Workspace.View) {
    var f := RenderFragment(env.codec, view.profile, view.nodes);
    && f.Ok?
    && forall l :: l in f.value.listeners ==>
         var d := Route(config, (l.host, l.port));
         d.Some? && d.value.strategy == Anonymous(f.value.group) && d.value.exits == Map(Exit(env.codec), view.nodes)
  }

  // The saved preview exists exactly when no remaining node is unknown.  The config then
  // sends the listeners it shows to the strategy it shows and to a permutation of its
  // proxies: the shown order exactly when the ids ascend.
  ghost predicate ServesSaved(env: Workspace.Env, db: Workspace.Database, config: Config,
                              id: int, q: Workspace.Payload, gone: set<int>)
  {
    && Workspace.ViewOf(env, db, id).Ok?
    && var view := Workspace.ViewOf(env, db, id).value;
       && view.nodes == Workspace.FindByIds(db.nodes, Remaining(q, gone).nodeIds)
       && ServesFound(env, config, view)
       && (Workspace.PreviewSaved(env, db, id).Ok? <==>
             forall n :: n in Remaining(q, gone).nodeIds ==> Workspace.Has(db.nodes, n))
       && (Workspace.PreviewSaved(env, db, id).Ok? ==>
             var preview := Workspace.PreviewSaved(env, db, id).value;
             && preview.nodeIds == Remaining(q, gone).nodeIds
             && multiset(view.nodes) == multiset(preview.nodes)
             && (view.nodes == preview.nodes <==> Ascending(preview.nodeIds))
             && forall l :: l in preview.fragment.listeners ==> Serves(config, env.codec, preview, view.nodes, l))
  }

  lemma StoredViewFlag(env: Workspace.Env, db: Workspace.Database, id: int, q: Workspace.Payload, gone: set<int>)
    requires WorkspaceProof.SettingsRoundTrip(env) && WorkspaceProof.Holds(env, db, id, q, gone)
    ensures Workspace.ViewOf(env, db, id).Ok?
    ensures Workspace.ViewOf(env, db, id).value.profile.includeInRuntime == q.includeInRuntime
    ensures id in db.profiles
  {
    hide Workspace.ViewOf, Workspace.Mine, Workspace.NodeIds, WorkspaceProof.Without;
    StoredView(env, db, id, q, gone);
  }

  // A saved preview beside the fragment of the view the compiler is given.
  ghost predicate AgreesWithView(env: Workspace.Env, preview: Workspace.ProfilePreview, view: Workspace.View)
    requires RenderFragment(env.codec, view.profile, view.nodes).Ok?
  {
    var f, g := preview.fragment, RenderFragment(env.codec, view.profile, view.nodes).value;
    && f.listeners == g.listeners && Anonymous(f.group) == Anonymous(g.group)
    && Shown(f.proxies) == Map(Exit(env.codec), preview.nodes)
    && Shown(g.proxies) == Map(Exit(env.codec), view.nodes)
    && multiset(view.nodes) == multiset(preview.nodes)
    && (forall n :: n in preview.nodes <==> n in view.nodes)
    && (view.nodes == preview.nodes <==> Ascending(preview.nodeIds))
  }

  lemma PreviewOfStored(env: Workspace.Env, db: Workspace.Database, id: int, q: Workspace.Payload, gone: set<int>)
    requires Workspace.KeysAscend(db.nodes) && WorkspaceProof.SettingsRoundTrip(env)
    requires WorkspaceProof.Holds(env, db, id, q, gone) && WorkspaceProof.Canonical(q)
    requires Workspace.ViewOf(env, db, id).Ok?
    requires var view := Workspace.ViewOf(env, db, id).value; RenderFragment(env.codec, view.profile, view.nodes).Ok?
    ensures Workspace.PreviewSaved(env, db, id).Ok? <==>
              forall n :: n in Remaining(q, gone).nodeIds ==> Workspace.Has(db.nodes, n)
    ensures Workspace.PreviewSaved(env, db, id).Ok? ==>
              && Workspace.PreviewSaved(env, db, id).value.nodeIds == Remaining(q, gone).nodeIds
              && AgreesWithView(env, Workspace.PreviewSaved(env, db, id).value, Workspace.ViewOf(env, db, id).value)
  {
    hide Workspace.ViewOf, Workspace.PreviewSaved, RenderFragment, Workspace.FindByIds, Workspace.Resolve,
         WorkspaceProof.Without, Workspace.Has, Workspace.KeysAscend, Ascending, WorkspaceProof.Canonical,
         WorkspaceProof.Holds, Shown, Map;
    var kept := Remaining(q, gone);
    var view := Workspace.ViewOf(env, db, id).value;
    StoredView(env, db, id, q, gone);
    FragmentIff(env.codec, view.profile, view.nodes);
    SomethingKept(db.nodes, kept.nodeIds);
    SavedPreviewUnfolds(env, db, id, q, gone);
    RemainingCanonical(q, gone);
    ResolvedIff(db.nodes, kept.nodeIds);
    if Workspace.Resolvable(db.nodes, kept.nodeIds) {
      ChosenPermutesFound(db.nodes, kept.nodeIds);
      CanonicalNotZero(q);
      FragmentsAlike(env.codec, Workspace.RowOf(env, 0, kept, kept.proxySettings), view.profile,
                     Workspace.Resolve(db.nodes, kept.nodeIds).value, view.nodes);
    }
  }

  lemma ServesAll(env: Workspace.Env, config: Config, preview: Workspace.ProfilePreview, view: Workspace.View)
    requires RenderFragment(env.codec, view.profile, view.nodes).Ok? && AgreesWithView(env, preview, view)
    requires var g := RenderFragment(env.codec, view.profile, view.nodes).value;
             forall l :: l in g.listeners ==>
               var d := Route(config, (l.host, l.port));
               d.Some? && d.value.strategy == Anonymous(g.group) && d.value.exits == Shown(g.proxies)
    ensures forall l :: l in preview.fragment.listeners ==> Serves(config, env.codec, preview, view.nodes, l)
    ensures multiset(view.nodes) == multiset(preview.nodes)
    ensures view.nodes == preview.nodes <==> Ascending(preview.nodeIds)
  {
    hide RenderFragment, Route, Ascending, Shown, Map;
    MapPermutes(Exit(env.codec), view.nodes, preview.nodes);
    if ToldApart(env.codec, preview.nodes) {
      MapInOrder(env.codec, preview.nodes, view.nodes);
    }
  }

  lemma FoundServed(env: Workspace.Env, config: Config, view: Workspace.View)
    requires RenderFragment(env.codec, view.profile, view.nodes).Ok?
    requires var f := RenderFragment(env.codec, view.profile, view.nodes).value;
             forall l :: l in f.listeners ==>
               var d := Route(config, (l.host, l.port));
               d.Some? && d.value.strategy == Anonymous(f.group) && d.value.exits == Shown(f.proxies)
    ensures ServesFound(env, config, view)
  {
    hide RenderFragment, Route, Shown, Map;
    var f := RenderFragment(env.codec, view.profile, view.nodes).value;
    FragmentIff(env.codec, view.profile, view.nodes);
    ShownAreExits(env.codec, view.nodes, f.proxies, f.group.proxies);
  }

  /** Whenever the stored profiles compile, every enabled one is served so. */
  lemma RuntimeServesSaved(env: Workspace.Env, db: Workspace.Database, ids: seq<int>, s: RuntimeSettings,
                           id: int, q: Workspace.Payload, gone: set<int>)
    requires Workspace.KeysAscend(db.nodes) && Lists(db, ids) && Compile(env, db, ids, s).Ok?
    requires WorkspaceProof.SettingsRoundTrip(env) && WorkspaceProof.Holds(env, db, id, q, gone)
    requires WorkspaceProof.Canonical(q) && q.includeInRuntime
    ensures ServesSaved(env, db, Compile(env, db, ids, s).value.config, id, q, gone)
  {
    hide Compile, Workspace.ViewOf, Workspace.PreviewSaved, RenderFragment, Route, Serves, AgreesWithView, ServesFound,
         Workspace.Has, Workspace.KeysAscend, Ascending, WorkspaceProof.Canonical, WorkspaceProof.Holds, Remaining,
         Workspace.FindByIds;
    var config := Compile(env, db, ids, s).value.config;
    StoredViewFlag(env, db, id, q, gone);
    StoredView(env, db, id, q, gone);
    EnabledProfileServed(env, db, ids, s, id);
    PreviewOfStored(env, db, id, q, gone);
    var view := Workspace.ViewOf(env, db, id).value;
    FoundServed(env, config, view);
    if Workspace.PreviewSaved(env, db, id).Ok? {
      ServesAll(env, config, Workspace.PreviewSaved(env, db, id).value, view);
    }
  }

  /** After any run of the workspace, for the payload last written for a profile. */
  lemma RuntimeServesLastWritten(env: Workspace.Env, w: WorkspaceRuns.World, events: seq<WorkspaceRuns.Event>,
                                 ids: seq<int>, s: RuntimeSettings, id: int, p: Workspace.Payload, dropped: set<int>)
    requires WorkspaceProof.SettingsRoundTrip(env) && WorkspaceRuns.Idle(w)
    requires Lists(WorkspaceRuns.Run(env, w, events).db, ids)
    requires Compile(env, WorkspaceRuns.Run(env, w, events).db, ids, s).Ok?
    requires WorkspacePreview.LastOf(env, w, events, id) == WorkspacePreview.Held(p, dropped) && p.includeInRuntime
    ensures Workspace.Normalize(p).Ok?
    ensures var now := WorkspaceRuns.Run(env, w, events).db;
            ServesSaved(env, now, Compile(env, now, ids, s).value.config, id, Workspace.Normalize(p).value, dropped)
  {
    hide WorkspaceRuns.Run, WorkspacePreview.LastOf, Compile, ServesSaved, WorkspaceProof.Holds, Lists,
         WorkspaceProof.Canonical, WorkspaceProof.SettingsRoundTrip, Workspace.KeysAscend;
    WorkspacePreview.RunTells(env, w, events, id);
    WorkspaceRuns.RunKeepsKeys(env, w, events);
    WorkspaceProof.NormalizeCanonical(p);
    NormalizeKeepsFlag(p);
    RuntimeServesSaved(env, WorkspaceRuns.Run(env, w, events).db, ids, s, id, Workspace.Normalize(p).value, dropped);
  }

  lemma NormalizeKeepsFlag(p: Workspace.Payload)
    requires Workspace.Normalize(p).Ok?
    ensures Workspace.Normalize(p).value.includeInRuntime == p.includeInRuntime
  {
  }

  lemma SomethingKept(nodes: seq<ProxyNode>, ids: seq<int>)
    requires Workspace.FindByIds(nodes, ids) != []
    ensures ids != []
  {
    hide Workspace.FindByIds;
    assert Workspace.FindByIds(nodes, ids)[0].id in ids;
  }

  lemma ResolvedIff(nodes: seq<ProxyNode>, ids: seq<int>)
    requires Distinct(ids)
    ensures Workspace.Resolve(nodes, ids).Some? <==> Workspace.Resolvable(nodes, ids)
    ensures Workspace.Resolvable(nodes, ids) <==> forall n :: n in ids ==> Workspace.Has(nodes, n)
  {
    hide Workspace.Has;
  }

  lemma CanonicalNotZero(q: Workspace.Payload)
    requires WorkspaceProof.Canonical(q)
    ensures q.proxySettings != ZERO_SETTINGS
  {
  }
}
