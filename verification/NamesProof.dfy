/** Which names the allocator hands out, and which the compiled config carries. */
module NamesProof {
  import opened Outcomes
  import opened GoText
  import opened Orders
  import opened Sequences
  import opened MihomoRenderer
  import opened UniqueNames
  import opened FinalConfig
  import opened Routing

  // ----- One name -----

  // A name is trimmed, with a dash for every character that is not safe in a config.
  lemma CandidateIs(base: string)
    ensures Blank(base) ==> Candidate(base) == "poolx"
    ensures !Blank(base) ==>
              var c, t := Candidate(base), TrimSpace(base);
              && |c| == |t|
              && forall i :: 0 <= i < |t| ==>
                   c[i] == if t[i] == '/' || t[i] == '\\' || t[i] == ':' || t[i] == '#' || t[i] == ',' || t[i] == ' '
                           then '-' else t[i]
  {
    hide TrimSpace;
    TrimSpaceBlank(base);
  }

  function Nth(base: string, n: nat): string {
    if n == 0 then Candidate(base) else Candidate(base) + "-" + PrintInt(n + 1)
  }

  // A free name is handed out as it is; a taken one with the least free number past the
  // one last given for it, which is remembered.
  lemma ReservedIs(used: map<string, int>, base: string)
    ensures var (name, after) := Reserved(used, base);
            var c := Candidate(base);
            && (c !in used ==> name == c && after == used[c := 1])
            && (c in used ==> exists k :: && k > used[c] && name == Numbered(c, k)
                                          && after == used[c := k][name := 1]
                                          && forall j :: used[c] < j < k ==> Numbered(c, j) in used)
  {
    hide Candidate, Numbered;
    var c := Candidate(base);
    if c in used {
      var k := NextFree(used, c, used[c]);
      assert Reserved(used, base).0 == Numbered(c, k);
    }
  }

  lemma NthDiffer(base: string, i: nat, j: nat)
    requires i != j
    ensures Nth(base, i) != Nth(base, j)
  {
    hide Candidate;
    var c := Candidate(base);
    if i > 0 && j > 0 && Nth(base, i) == Nth(base, j) {
      NumberedInjective(c, i + 1, j + 1);
    } else if i > 0 || j > 0 {
      assert |Nth(base, if i > 0 then i else j)| > |c|;
    }
  }

  // The table after m reservations of one base name and any others it does not clash with.
  ghost predicate Counts(used: map<string, int>, base: string, m: nat) {
    && (forall j: nat :: j >= m ==> Nth(base, j) !in used)
    && (m > 0 ==> Candidate(base) in used && used[Candidate(base)] == m)
  }

  lemma CountsOn(used: map<string, int>, base: string, m: nat)
    requires Counts(used, base, m)
    ensures Reserved(used, base).0 == Nth(base, m)
    ensures Counts(Reserved(used, base).1, base, m + 1)
  {
    hide Candidate, PrintInt, Reserved;
    var after := Reserved(used, base).1;
    ReservedIs(used, base);
    if m > 0 {
      assert Numbered(Candidate(base), m + 1) == Nth(base, m);
    }
    forall j: nat | j >= m + 1 ensures Nth(base, j) !in after {
      NthDiffer(base, m, j);
      NthDiffer(base, 0, j);
    }
  }

  function InTurn(base: string, m: nat, n: nat): seq<string> {
    seq(n, i requires 0 <= i < n => Nth(base, m + i))
  }

  lemma InTurnCons(base: string, m: nat, n: nat)
    requires n > 0
    ensures InTurn(base, m, n) == [Nth(base, m)] + InTurn(base, m + 1, n - 1)
  {
    hide Nth;
  }

  lemma ReservedCons(used: map<string, int>, base: string, rest: seq<string>)
    ensures ReservedAll(used, [base] + rest) == [Reserved(used, base).0] + ReservedAll(Reserved(used, base).1, rest)
    ensures ReservedAll(used, []) == []
  {
    hide Reserved;
    assert ([base] + rest)[1..] == rest;
  }

  // Reserving one base name again and again numbers it 2, 3, and so on.
  lemma {:induction false} NumberedInTurn(used: map<string, int>, base: string, m: nat, n: nat)
    requires Counts(used, base, m)
    ensures ReservedAll(used, Repeat(base, n)) == InTurn(base, m, n)
    decreases n
  {
    hide Reserved, Counts, Nth, ReservedAll;
    if n == 0 {
      ReservedCons(used, base, []);
      assert InTurn(base, m, 0) == [];
    } else {
      CountsOn(used, base, m);
      InTurnCons(base, m, n);
      assert Repeat(base, n) == [base] + Repeat(base, n - 1);
      hide InTurn, Repeat;
      ReservedCons(used, base, Repeat(base, n - 1));
      NumberedInTurn(Reserved(used, base).1, base, m + 1, n - 1);
    }
  }

  // ----- Names of groups -----

  function Bases(ps: seq<ProfileView>): (bases: seq<string>)
    ensures |bases| == |ps|
  {
    if ps == [] then []
    else
      var name := TrimSpace(ps[0].profile.name);
      [if name == "" then "POOLX" else name] + Bases(ps[1..])
  }

  lemma AddProfileNames(codec: Codec, b: Build, p: ProfileView)
    requires AddProfile(codec, b, p).Ok?
    ensures var after := AddProfile(codec, b, p).value;
            && (if TrimSpace(p.profile.name) == "" then "POOLX" else TrimSpace(p.profile.name)) == GroupBase(p.profile)
            && |after.groups| == |b.groups| + 1 && after.groups[..|b.groups|] == b.groups
            && after.groups[|b.groups|].name == Reserved(b.groupNames, GroupBase(p.profile)).0
            && after.groupNames == Reserved(b.groupNames, GroupBase(p.profile)).1
            && BindNodes(codec, b.pool, [], p.nodes).Ok?
            && after.pool == BindNodes(codec, b.pool, [], p.nodes).value.0
  {
    hide TrimSpace, Reserved, BindNodes, AddListeners, BuildListeners, ResolveSettings;
  }

  ghost predicate GroupsNamed(b: Build, r: Build, bases: seq<string>) {
    && |r.groups| == |b.groups| + |bases| && r.groups[..|b.groups|] == b.groups
    && forall j :: |b.groups| <= j < |r.groups| ==>
         r.groups[j].name == ReservedAll(b.groupNames, bases)[j - |b.groups|]
  }

  lemma GroupsThen(b: Build, mid: Build, r: Build, base: string, bases: seq<string>)
    requires |mid.groups| == |b.groups| + 1 && mid.groups[..|b.groups|] == b.groups
    requires (mid.groups[|b.groups|].name, mid.groupNames) == Reserved(b.groupNames, base)
    requires GroupsNamed(mid, r, bases)
    ensures GroupsNamed(b, r, [base] + bases)
  {
    hide Reserved;
    assert ([base] + bases)[1..] == bases;
    assert r.groups[|b.groups|] == r.groups[..|mid.groups|][|b.groups|];
    assert r.groups[..|b.groups|] == r.groups[..|mid.groups|][..|b.groups|];
  }

  lemma {:induction false} GroupNames(codec: Codec, b: Build, profiles: seq<Option<ProfileView>>)
    requires AddProfiles(codec, b, profiles).Ok?
    ensures GroupsNamed(b, AddProfiles(codec, b, profiles).value, Bases(Included(profiles)))
    decreases |profiles|
  {
    hide AddProfile, Reserved, TrimSpace;
    if profiles != [] {
      hide GroupsNamed;
      if profiles[0].None? || !profiles[0].value.profile.includeInRuntime {
        GroupNames(codec, b, profiles[1..]);
      } else {
        var p := profiles[0].value;
        AddProfileNames(codec, b, p);
        var mid := AddProfile(codec, b, p).value;
        GroupNames(codec, mid, profiles[1..]);
        GroupsThen(b, mid, AddProfiles(codec, mid, profiles[1..]).value, GroupBase(p.profile), Bases(Included(profiles[1..])));
        assert Included(profiles)[1..] == Included(profiles[1..]);
      }
    }
  }

  // ----- Names of proxies -----

  /** The first node of every id outside seen, in order. */
  function FirstNodes(nodes: seq<ProxyNode>, seen: set<int>): seq<ProxyNode> {
    if nodes == [] then []
    else if nodes[0].id in seen then FirstNodes(nodes[1..], seen)
    else [nodes[0]] + FirstNodes(nodes[1..], seen + {nodes[0].id})
  }

  function NamesOf(nodes: seq<ProxyNode>): (names: seq<string>)
    ensures |names| == |nodes|
  {
    if nodes == [] then [] else [nodes[0].name] + NamesOf(nodes[1..])
  }

  function IdsOf(nodes: seq<ProxyNode>): set<int> {
    set n | n in nodes :: n.id
  }

  function TableAfter(used: map<string, int>, bases: seq<string>): map<string, int>
    decreases |bases|
  {
    if bases == [] then used else TableAfter(Reserved(used, bases[0]).1, bases[1..])
  }

  // From one pool to another the proxies of these nodes are added, under the names reserved
  // for them in turn.
  ghost predicate Adds(pool: Pool, after: Pool, firsts: seq<ProxyNode>) {
    && |after.proxies| == |pool.proxies| + |firsts| && after.proxies[..|pool.proxies|] == pool.proxies
    && after.names == TableAfter(pool.names, NamesOf(firsts))
    && forall j :: |pool.proxies| <= j < |after.proxies| ==>
         IsNamed(after.proxies[j], ReservedAll(pool.names, NamesOf(firsts))[j - |pool.proxies|])
  }

  predicate IsNamed(m: Metadata, name: string) {
    "name" in m && m["name"] == Text(name)
  }

  lemma {:induction false} ReservedInTurn(used: map<string, int>, a: seq<string>, b: seq<string>)
    ensures ReservedAll(used, a + b) == ReservedAll(used, a) + ReservedAll(TableAfter(used, a), b)
    ensures TableAfter(used, a + b) == TableAfter(TableAfter(used, a), b)
    decreases |a|
  {
    hide Reserved;
    if a == [] {
      assert a + b == b;
    } else {
      assert (a + b)[1..] == a[1..] + b;
      ReservedInTurn(Reserved(used, a[0]).1, a[1..], b);
    }
  }

  lemma {:induction false} NamesOfBoth(a: seq<ProxyNode>, b: seq<ProxyNode>)
    ensures NamesOf(a + b) == NamesOf(a) + NamesOf(b)
  {
    if a == [] {
      assert a + b == b;
    } else {
      assert (a + b)[1..] == a[1..] + b;
      NamesOfBoth(a[1..], b);
    }
  }

  lemma AddsThen(pool: Pool, mid: Pool, after: Pool, a: seq<ProxyNode>, b: seq<ProxyNode>)
    requires Adds(pool, mid, a) && Adds(mid, after, b)
    ensures Adds(pool, after, a + b)
  {
    hide TableAfter, ReservedAll, NamesOf;
    NamesOfBoth(a, b);
    ReservedInTurn(pool.names, NamesOf(a), NamesOf(b));
    forall j | |pool.proxies| <= j < |after.proxies|
      ensures IsNamed(after.proxies[j], ReservedAll(pool.names, NamesOf(a + b))[j - |pool.proxies|])
    {
      if j < |mid.proxies| {
        assert after.proxies[j] == after.proxies[..|mid.proxies|][j] == mid.proxies[j];
      }
    }
    assert after.proxies[..|pool.proxies|] == after.proxies[..|mid.proxies|][..|pool.proxies|];
  }

  lemma IdsCons(nodes: seq<ProxyNode>)
    requires nodes != []
    ensures IdsOf(nodes) == {nodes[0].id} + IdsOf(nodes[1..])
  {
    assert nodes == [nodes[0]] + nodes[1..];
  }

  lemma {:induction false} FirstNodesOfBoth(a: seq<ProxyNode>, b: seq<ProxyNode>, seen: set<int>)
    ensures FirstNodes(a + b, seen) == FirstNodes(a, seen) + FirstNodes(b, seen + IdsOf(a))
    decreases |a|
  {
    if a == [] {
      assert a + b == b && seen + IdsOf(a) == seen;
    } else {
      hide IdsOf;
      assert (a + b)[1..] == a[1..] + b;
      IdsCons(a);
      var next := if a[0].id in seen then seen else seen + {a[0].id};
      FirstNodesOfBoth(a[1..], b, next);
      assert seen + IdsOf(a) == next + IdsOf(a[1..]);
    }
  }

  lemma OneBound(pool: Pool, node: ProxyNode, metadata: Metadata)
    ensures Adds(pool, BindNew(pool, node, metadata), [node])
    ensures BindNew(pool, node, metadata).bindings.Keys == pool.bindings.Keys + {node.id}
  {
    hide Reserved;
    assert [node][1..] == [] && NamesOf([node]) == [node.name] && [node.name][1..] == [];
    var (name, used) := Reserved(pool.names, node.name);
    assert ReservedAll(pool.names, [node.name]) == [name] + ReservedAll(used, []);
    assert TableAfter(pool.names, [node.name]) == TableAfter(used, []) == used;
    var after := BindNew(pool, node, metadata);
    assert after.proxies[..|pool.proxies|] == pool.proxies;
  }

  lemma NothingBound(pool: Pool)
    ensures Adds(pool, pool, [])
  {
  }

  lemma {:induction false} BoundNames(codec: Codec, pool: Pool, names: seq<string>, nodes: seq<ProxyNode>)
    requires BindNodes(codec, pool, names, nodes).Ok?
    ensures var after := BindNodes(codec, pool, names, nodes).value.0;
            && Adds(pool, after, FirstNodes(nodes, pool.bindings.Keys))
            && after.bindings.Keys == pool.bindings.Keys + IdsOf(nodes)
    decreases |nodes|
  {
    hide Adds, BindNew;
    if nodes == [] {
      NothingBound(pool);
    } else {
      var node := nodes[0];
      IdsCons(nodes);
      if node.id in pool.bindings {
        BoundNames(codec, pool, names + [pool.bindings[node.id]], nodes[1..]);
      } else {
        var mid := BindNew(pool, node, codec.node(node.metadataJson).metadata);
        OneBound(pool, node, codec.node(node.metadataJson).metadata);
        BoundNames(codec, mid, names + [mid.bindings[node.id]], nodes[1..]);
        AddsThen(pool, mid, BindNodes(codec, mid, names + [mid.bindings[node.id]], nodes[1..]).value.0,
                 [node], FirstNodes(nodes[1..], mid.bindings.Keys));
      }
    }
  }

  function AllNodes(ps: seq<ProfileView>): seq<ProxyNode> {
    if ps == [] then [] else ps[0].nodes + AllNodes(ps[1..])
  }

  lemma {:induction false} ProxyNames(codec: Codec, b: Build, profiles: seq<Option<ProfileView>>)
    requires AddProfiles(codec, b, profiles).Ok?
    ensures Adds(b.pool, AddProfiles(codec, b, profiles).value.pool,
                 FirstNodes(AllNodes(Included(profiles)), b.pool.bindings.Keys))
    decreases |profiles|
  {
    hide AddProfile, Adds, BindNodes, FirstNodes;
    if profiles == [] {
      NothingBound(b.pool);
      NoFirstNodes(b.pool.bindings.Keys);
    } else if profiles[0].None? || !profiles[0].value.profile.includeInRuntime {
      ProxyNames(codec, b, profiles[1..]);
    } else {
      var p := profiles[0].value;
      AddProfileNames(codec, b, p);
      BoundNames(codec, b.pool, [], p.nodes);
      var after, rest := AddProfile(codec, b, p).value, AllNodes(Included(profiles[1..]));
      ProxyNames(codec, after, profiles[1..]);
      FirstNodesOfBoth(p.nodes, rest, b.pool.bindings.Keys);
      AddsThen(b.pool, after.pool, AddProfiles(codec, after, profiles[1..]).value.pool,
               FirstNodes(p.nodes, b.pool.bindings.Keys), FirstNodes(rest, after.pool.bindings.Keys));
      assert Included(profiles)[1..] == Included(profiles[1..]);
    }
  }

  lemma NoFirstNodes(seen: set<int>)
    ensures FirstNodes([], seen) == []
  {
  }

  /** The groups carry the names reserved for the profiles' names in turn, and the proxies,
      one for the first node of each id, those reserved for the nodes' names. */
  lemma ConfigNames(codec: Codec, input: Input)
    requires Render(codec, input).Ok?
    ensures var config, ps := Render(codec, input).value.config, Included(input.profiles);
            && |config.groups| == |ps|
            && (forall i :: 0 <= i < |config.groups| ==> config.groups[i].name == ReservedAll(map[], Bases(ps))[i])
            && var firsts := FirstNodes(AllNodes(ps), {});
               && |config.proxies| == |firsts|
               && forall k :: 0 <= k < |firsts| ==> IsNamed(config.proxies[k], ReservedAll(map[], NamesOf(firsts))[k])
  {
    hide AddProfiles, ReservedAll, NamesOf, FirstNodes, TableAfter, Bases, Sort;
    GroupNames(codec, EMPTY, input.profiles);
    ProxyNames(codec, EMPTY, input.profiles);
    assert EMPTY.pool.bindings.Keys == {};
  }
}
