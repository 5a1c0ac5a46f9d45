/** Exactly when the renderers assign into a nil map. */
module Crashes {
  import opened Outcomes
  import opened MihomoRenderer
  import opened UniqueNames
  import opened FinalConfig
  import opened Routing
  import opened RoutingProof
  import opened PreviewProof

  // ----- The preview renderer -----

  ghost predicate NilAt(codec: Codec, nodes: seq<ProxyNode>, k: nat) {
    k < |nodes| && codec.node(nodes[k].metadataJson).NilMap? && AllDecode(codec, nodes[..k])
  }

  lemma {:induction false} DecodeCrashesIff(codec: Codec, proxies: seq<Metadata>, names: seq<string>, nodes: seq<ProxyNode>)
    ensures DecodeNodes(codec, proxies, names, nodes).Crashed? <==> exists k :: NilAt(codec, nodes, k)
    decreases |nodes|
  {
    if nodes != [] {
      var node := nodes[0];
      NilHere(codec, nodes);
      forall k: nat | k > 0 ensures NilAt(codec, nodes, k) <==>
                                      codec.node(node.metadataJson).Decoded? && NilAt(codec, nodes[1..], k - 1) {
        NilLater(codec, nodes, k);
      }
      if codec.node(node.metadataJson).Decoded? {
        var metadata := codec.node(node.metadataJson).metadata;
        DecodeCrashesIff(codec, proxies + [metadata["name" := Text(node.name)]], names + [node.name], nodes[1..]);
        if k: nat :| NilAt(codec, nodes[1..], k) {
          assert NilAt(codec, nodes, k + 1);
        }
      }
    }
  }

  lemma NilHere(codec: Codec, nodes: seq<ProxyNode>)
    requires nodes != []
    ensures NilAt(codec, nodes, 0) <==> codec.node(nodes[0].metadataJson).NilMap?
  {
  }

  lemma NilLater(codec: Codec, nodes: seq<ProxyNode>, k: nat)
    requires nodes != [] && k > 0
    ensures NilAt(codec, nodes, k) <==> codec.node(nodes[0].metadataJson).Decoded? && NilAt(codec, nodes[1..], k - 1)
  {
    if k < |nodes| {
      assert nodes[1..][k - 1] == nodes[k];
      assert forall j :: 0 < j < k ==> nodes[..k][j] == nodes[1..][..k - 1][j - 1];
      assert nodes[..k][0] == nodes[0];
    }
  }

  /** The preview crashes exactly when the first chosen node whose metadata does not decode
      to an object decodes to nothing. */
  lemma FragmentCrashesIff(codec: Codec, profile: PortProfile, nodes: seq<ProxyNode>)
    ensures RenderFragment(codec, profile, nodes).Crashed? <==> exists k :: NilAt(codec, nodes, k)
  {
    hide DecodeNodes, ResolveSettings, AllDecode;
    DecodeCrashesIff(codec, [], [], nodes);
  }

  // ----- The runtime compiler -----

  // Node k is met for the first time, after nodes that all decode, and is nothing.
  ghost predicate NilNew(codec: Codec, done: seq<ProxyNode>, nodes: seq<ProxyNode>, k: nat) {
    && k < |nodes|
    && codec.node(nodes[k].metadataJson).NilMap?
    && !HasId(done + nodes[..k], nodes[k].id)
    && NodesDecode(codec, done + nodes[..k])
  }

  lemma NilNewHere(codec: Codec, done: seq<ProxyNode>, nodes: seq<ProxyNode>)
    requires nodes != [] && NodesDecode(codec, done)
    ensures NilNew(codec, done, nodes, 0) <==>
              codec.node(nodes[0].metadataJson).NilMap? && !HasId(done, nodes[0].id)
  {
    hide NodesDecode, HasId;
    assert done + nodes[..0] == done;
  }

  lemma NilNewLater(codec: Codec, done: seq<ProxyNode>, nodes: seq<ProxyNode>, k: nat)
    requires nodes != [] && k > 0 && NodesDecode(codec, done)
    ensures NilNew(codec, done, nodes, k) ==> HasId(done, nodes[0].id) || codec.node(nodes[0].metadataJson).Decoded?
    ensures NilNew(codec, done, nodes, k) <==> NilNew(codec, done + [nodes[0]], nodes[1..], k - 1)
  {
    hide NodesDecode, HasId;
    if k < |nodes| {
      assert done + nodes[..k] == (done + [nodes[0]]) + nodes[1..][..k - 1];
      if !HasId(done, nodes[0].id) && !codec.node(nodes[0].metadataJson).Decoded? {
        UndecodedStays(codec, done, nodes[0], nodes[1..][..k - 1]);
      }
    }
  }

  lemma NilNewSplits(codec: Codec, done: seq<ProxyNode>, nodes: seq<ProxyNode>)
    requires nodes != [] && NodesDecode(codec, done)
    ensures (exists k :: NilNew(codec, done, nodes, k)) <==>
              || (codec.node(nodes[0].metadataJson).NilMap? && !HasId(done, nodes[0].id))
              || (exists k :: NilNew(codec, done + [nodes[0]], nodes[1..], k))
    ensures (exists k :: NilNew(codec, done + [nodes[0]], nodes[1..], k)) ==>
              HasId(done, nodes[0].id) || codec.node(nodes[0].metadataJson).Decoded?
  {
    NilNewHere(codec, done, nodes);
    forall k: nat | k > 0
      ensures NilNew(codec, done, nodes, k) ==> HasId(done, nodes[0].id) || codec.node(nodes[0].metadataJson).Decoded?
      ensures NilNew(codec, done, nodes, k) <==> NilNew(codec, done + [nodes[0]], nodes[1..], k - 1)
    {
      NilNewLater(codec, done, nodes, k);
    }
    hide NilNew, HasId, NodesDecode;
    if k: nat :| NilNew(codec, done + [nodes[0]], nodes[1..], k) {
      assert NilNew(codec, done, nodes, k + 1);
    }
  }

  lemma {:induction false} BindCrashesIff(codec: Codec, pool: Pool, done: seq<ProxyNode>, names: seq<string>,
                                          nodes: seq<ProxyNode>)
    requires PoolMatches(codec, pool, done)
    ensures BindNodes(codec, pool, names, nodes).Crashed? <==> exists k :: NilNew(codec, done, nodes, k)
    decreases |nodes|
  {
    hide PoolMatches, NodesDecode, HasId, BindNew, NilNew;
    if nodes == [] {
      NothingNil(codec, done);
    } else {
      var node := nodes[0];
      PoolKnows(codec, pool, done, node.id);
      NilNewSplits(codec, done, nodes);
      if node.id in pool.bindings {
        BindOldMatches(codec, pool, done, node);
        BindCrashesIff(codec, pool, done + [node], names + [pool.bindings[node.id]], nodes[1..]);
      } else if codec.node(node.metadataJson).Decoded? {
        var metadata := codec.node(node.metadataJson).metadata;
        var pool' := BindNew(pool, node, metadata);
        BindNewMatches(codec, pool, done, node, metadata);
        BindCrashesIff(codec, pool', done + [node], names + [pool'.bindings[node.id]], nodes[1..]);
      }
    }
  }

  lemma NothingNil(codec: Codec, done: seq<ProxyNode>)
    ensures !exists k :: NilNew(codec, done, [], k)
  {
  }

  // Profile i is reached, usable, and its node k stops the compiler.
  ghost predicate CrashesIn(codec: Codec, ps: seq<ProfileView>, i: nat, k: nat) {
    && i < |ps|
    && Renderable(codec, ps[..i])
    && Configured(codec, ps[i])
    && NilNew(codec, NodesOf(ps[..i]), ps[i].nodes, k)
  }

  lemma AddProfileCrashesIff(codec: Codec, b: Build, done: seq<ProfileView>, p: ProfileView)
    requires Matches(codec, b, done)
    ensures AddProfile(codec, b, p).Crashed? <==>
              Configured(codec, p) && exists k :: NilNew(codec, NodesOf(done), p.nodes, k)
  {
    hide Reserved, ResolveSettings, BuildListeners, BuildStrategyGroup, BindNodes, AddListeners, PoolMatches, NilNew;
    hide NodesOf;
    BindCrashesIff(codec, b.pool, NodesOf(done), [], p.nodes);
    forall board: Board, group: string, ls: seq<Listener> ensures !AddListeners(board, group, p.profile, ls).Crashed? {
      AddListenersNeverCrash(board, group, p.profile, ls);
    }
  }

  lemma {:induction false} AddListenersNeverCrash(board: Board, group: string, profile: PortProfile, ls: seq<Listener>)
    ensures !AddListeners(board, group, profile, ls).Crashed?
    decreases |ls|
  {
    if ls != [] && ListenerKey(ls[0].host, ls[0].port) !in board.keys {
      AddListenersNeverCrash(AddListener(board, group, profile, ls[0]), group, profile, ls[1..]);
    }
  }

  // Behind a profile that cannot be added nothing is reached.
  lemma ReachedBehind(codec: Codec, b: Build, done: seq<ProfileView>, p: ProfileView, more: seq<ProfileView>, i: nat, k: nat)
    requires Matches(codec, b, done) && CrashesIn(codec, done + [p] + more, i, k) && i >= |done|
    ensures i == |done| ==> Configured(codec, p) && NilNew(codec, NodesOf(done), p.nodes, k)
    ensures i > |done| ==> AddProfile(codec, b, p).Ok?
  {
    hide Renderable, AddProfile, Matches, NilNew, Configured, NodesOf;
    var ps := done + [p] + more;
    if i == |done| {
      assert ps[..i] == done && ps[i] == p;
    } else {
      assert ps[..i] == (done + [p]) + ps[|done| + 1..i];
      RenderablePrefix(codec, done + [p], ps[|done| + 1..i]);
      AddProfileOkIff(codec, b, done, p);
    }
  }

  lemma CrashesHere(codec: Codec, b: Build, done: seq<ProfileView>, p: ProfileView, more: seq<ProfileView>, k: nat)
    requires Matches(codec, b, done) && Configured(codec, p) && NilNew(codec, NodesOf(done), p.nodes, k)
    ensures CrashesIn(codec, done + [p] + more, |done|, k)
  {
    hide Renderable, NilNew, Configured, NodesOf;
    MatchesRenderable(codec, b, done);
    assert (done + [p] + more)[..|done|] == done;
  }

  ghost predicate CrashesFrom(codec: Codec, ps: seq<ProfileView>, from: nat) {
    exists i: nat, k: nat :: i >= from && CrashesIn(codec, ps, i, k)
  }

  // One profile decides, or the rest does.
  lemma CrashesFromSplits(codec: Codec, b: Build, done: seq<ProfileView>, p: ProfileView, more: seq<ProfileView>)
    requires Matches(codec, b, done)
    ensures AddProfile(codec, b, p).Crashed? ==> CrashesFrom(codec, done + [p] + more, |done|)
    ensures AddProfile(codec, b, p).Failed? ==> !CrashesFrom(codec, done + [p] + more, |done|)
    ensures AddProfile(codec, b, p).Ok? ==>
              (CrashesFrom(codec, done + [p] + more, |done|) <==> CrashesFrom(codec, done + [p] + more, |done| + 1))
  {
    hide Matches, AddProfile, CrashesIn, NilNew, Configured, NodesOf;
    var ps := done + [p] + more;
    AddProfileCrashesIff(codec, b, done, p);
    if AddProfile(codec, b, p).Crashed? {
      var k :| NilNew(codec, NodesOf(done), p.nodes, k);
      CrashesHere(codec, b, done, p, more, k);
    } else if i: nat, k: nat :| i >= |done| && CrashesIn(codec, ps, i, k) {
      ReachedBehind(codec, b, done, p, more, i, k);
      assert i >= |done| + 1;
    }
  }

  lemma {:induction false} AddProfilesCrashIff(codec: Codec, b: Build, done: seq<ProfileView>, todo: seq<Option<ProfileView>>)
    requires Matches(codec, b, done)
    ensures AddProfiles(codec, b, todo).Crashed? <==> CrashesFrom(codec, done + Included(todo), |done|)
    decreases |todo|
  {
    hide Matches, AddProfile, CrashesFrom;
    if todo == [] {
      NowhereElse(codec, done);
    } else if todo[0].None? || !todo[0].value.profile.includeInRuntime {
      assert Included(todo) == Included(todo[1..]);
      AddProfilesCrashIff(codec, b, done, todo[1..]);
    } else {
      var p, more := todo[0].value, Included(todo[1..]);
      assert done + Included(todo) == done + [p] + more;
      CrashesFromSplits(codec, b, done, p, more);
      var r := AddProfile(codec, b, p);
      if r.Ok? {
        AddProfileMatches(codec, b, done, p);
        AddProfilesCrashIff(codec, r.value, done + [p], todo[1..]);
      }
    }
  }

  lemma NowhereElse(codec: Codec, done: seq<ProfileView>)
    ensures !CrashesFrom(codec, done + Included([]), |done|)
  {
  }

  /** The compiler crashes exactly when, everything before being in order, it reaches a
      usable included profile with a node met for the first time, behind nodes that all
      decode, whose metadata decodes to nothing. */
  lemma RenderCrashesIff(codec: Codec, input: Input)
    ensures Render(codec, input).Crashed? <==> exists i, k :: CrashesIn(codec, Included(input.profiles), i, k)
  {
    hide CrashesIn, AddProfiles, Matches;
    assert CrashesFrom(codec, Included(input.profiles), 0) <==> exists i, k :: CrashesIn(codec, Included(input.profiles), i, k);
    assert Matches(codec, EMPTY, []) by { EmptyMatches(codec); }
    AddProfilesCrashIff(codec, EMPTY, [], input.profiles);
    assert [] + Included(input.profiles) == Included(input.profiles);
    if input.profiles == [] {
      NothingIncluded(codec);
    }
  }

  lemma EmptyMatches(codec: Codec)
    ensures Matches(codec, EMPTY, [])
  {
  }

  lemma NothingIncluded(codec: Codec)
    ensures !exists i, k :: CrashesIn(codec, Included([]), i, k)
  {
  }

  // A node stored as null, alone in an included profile with the settings everyone has.
  lemma NullMetadataCrashes(codec: Codec, profile: PortProfile, id: int, name: string)
    requires codec.node("null").NilMap? && profile.includeInRuntime && profile.proxySettings == DEFAULT_SETTINGS
    ensures RenderFragment(codec, profile, [ProxyNode(id, name, "null")]).Crashed?
    ensures Render(codec, Input([Some(ProfileView(profile, [ProxyNode(id, name, "null")]))], false, "rule", "", "")).Crashed?
  {
    var nodes := [ProxyNode(id, name, "null")];
    hide Render, RenderFragment, Renderable, NodesOf;
    FragmentCrashesIff(codec, profile, nodes);
    assert NilAt(codec, nodes, 0);
    var p := ProfileView(profile, nodes);
    var profiles := [Some(p)];
    RenderCrashesIff(codec, Input(profiles, false, "rule", "", ""));
    assert profiles[1..] == [];
    assert Included(profiles) == [p];
    MatchesRenderable(codec, EMPTY, []) by { EmptyMatches(codec); }
    CrashesHere(codec, EMPTY, [], p, [], 0) by { EmptyMatches(codec); FirstIsNil(codec, nodes); }
    assert [] + [p] + [] == [p];
  }

  lemma FirstIsNil(codec: Codec, nodes: seq<ProxyNode>)
    requires nodes != [] && codec.node(nodes[0].metadataJson).NilMap?
    ensures NilNew(codec, NodesOf([]), nodes, 0)
  {
  }
}
