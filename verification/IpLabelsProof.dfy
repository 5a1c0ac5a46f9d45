/** The label cache is invisible, bounded and first-in first-out, over every run. */
module IpLabelsProof {
  import opened Outcomes
  import opened Sequences
  import opened JsMaps
  import opened IpLabels

  // ----- Runs of rebuilds and lookups -----

  datatype Event = Rebuild(rows: seq<LabelRow>, backend: Option<string>) | Lookup(ip: string)

  // admitted: the addresses that entered the cache since the last rebuild, oldest first.
  datatype World = World(tables: Tables, cache: Entries<string>, admitted: seq<string>)

  function React(engine: Engine, w: World, e: Event): World {
    match e
    case Rebuild(rows, backend) => World(Fill(engine, backend, NO_TABLES, rows).0, [], [])
    case Lookup(ip) =>
      World(w.tables, CacheAfter(engine, w.tables, w.cache, ip),
            if Admitted(engine, w.tables, w.cache, ip) then w.admitted + [ip] else w.admitted)
  }

  function Run(engine: Engine, events: seq<Event>): World {
    if events == [] then World(NO_TABLES, [], [])
    else React(engine, Run(engine, events[..|events| - 1]), events[|events| - 1])
  }

  // The answer of the code to one more lookup.
  function Answer(engine: Engine, w: World, ip: string): Outcome {
    if ip == "" then Label("Inner")
    else if Get(w.cache, ip).Some? then Label(Get(w.cache, ip).value)
    else Uncached(engine, w.tables, ip)
  }

  // The rows that count: those in scope, up to a pattern that does not compile.
  function Effective(engine: Engine, backend: Option<string>, rows: seq<LabelRow>): seq<LabelRow> {
    if rows == [] then []
    else if !InScope(rows[0], backend) then Effective(engine, backend, rows[1..])
    else if Fatal(engine, rows[0]) then []
    else [rows[0]] + Effective(engine, backend, rows[1..])
  }

  // The effective rows of the latest rebuild.
  function Latest(engine: Engine, events: seq<Event>): seq<LabelRow> {
    if events == [] then []
    else
      match events[|events| - 1]
      case Rebuild(rows, backend) => Effective(engine, backend, rows)
      case Lookup(_) => Latest(engine, events[..|events| - 1])
  }

  // ----- What the label list means, read off the rows themselves -----

  // The key of the first plain row that names the address.
  function NamingKey(engine: Engine, rows: seq<LabelRow>, ipv6: bool, ip: string): Option<string> {
    if rows == [] then None
    else if KindOf(engine, rows[0].key).Plain? && (rows[0].key == ip || (ipv6 && EndsWith(ip, rows[0].key)))
    then Some(rows[0].key)
    else NamingKey(engine, rows[1..], ipv6, ip)
  }

  // Of several plain rows with one key the last one's text counts.
  function LastText(engine: Engine, rows: seq<LabelRow>, key: string): Option<string> {
    if rows == [] then None
    else
      var later := LastText(engine, rows[1..], key);
      if later.None? && KindOf(engine, rows[0].key).Plain? && rows[0].key == key then Some(rows[0].text) else later
  }

  function PatternRows(engine: Engine, rows: seq<LabelRow>): seq<(string, string)> {
    if rows == [] then []
    else
      match KindOf(engine, rows[0].key)
      case Pattern(source) => [(source, rows[0].text)] + PatternRows(engine, rows[1..])
      case _ => PatternRows(engine, rows[1..])
  }

  function NetworkRows(engine: Engine, rows: seq<LabelRow>): seq<(Network, string)> {
    if rows == [] then []
    else
      match KindOf(engine, rows[0].key)
      case Range(network) => [(network, rows[0].text)] + NetworkRows(engine, rows[1..])
      case _ => NetworkRows(engine, rows[1..])
  }

  /** The answer the rows call for: plain keys, then patterns, then networks. */
  function Meaning(engine: Engine, rows: seq<LabelRow>, ip: string): Outcome {
    if ip == "" then Label("Inner")
    else
      match engine.parse(ip)
      case None => Throws
      case Some(address) =>
        var key := NamingKey(engine, rows, address.ipv6, ip);
        if key.Some? && LastText(engine, rows, key.value).Some? then Label(LastText(engine, rows, key.value).value)
        else
          match PatternLabel(engine, PatternRows(engine, rows), ip)
          case Some(text) => Label(text)
          case None => NetworkLabel(engine, NetworkRows(engine, rows), address, ip)
  }

  // ----- The tables carry that meaning -----

  function Or<T>(a: Option<T>, b: Option<T>): Option<T> {
    if a.Some? then a else b
  }

  function SuffixKey(m: Entries<string>, ip: string): Option<string> {
    match SuffixEntry(m, ip) case None => None case Some(e) => Some(e.0)
  }

  lemma {:induction false} SuffixEntryIsGet(m: Entries<string>, ip: string)
    requires SuffixEntry(m, ip).Some?
    ensures EndsWith(ip, SuffixEntry(m, ip).value.0)
    ensures Get(m, SuffixEntry(m, ip).value.0) == Some(SuffixEntry(m, ip).value.1)
  {
    if !EndsWith(ip, m[0].0) {
      SuffixEntryIsGet(m[1..], ip);
    }
  }

  lemma {:induction false} NoSuffixNoGet(m: Entries<string>, ip: string)
    requires SuffixEntry(m, ip).None?
    ensures Get(m, ip).None?
  {
    if m != [] {
      assert EndsWith(ip, ip);
      NoSuffixNoGet(m[1..], ip);
    }
  }

  lemma {:induction false} SuffixKeyPut(m: Entries<string>, key: string, text: string, ip: string)
    ensures SuffixKey(Put(m, key, text), ip) == Or(SuffixKey(m, ip), if EndsWith(ip, key) then Some(key) else None)
  {
    if m == [] {
      assert Put(m, key, text)[1..] == [];
    } else if m[0].0 == key {
      assert Put(m, key, text)[1..] == m[1..];
    } else {
      SuffixKeyPut(m[1..], key, text, ip);
      assert Put(m, key, text)[1..] == Put(m[1..], key, text);
    }
  }

  lemma {:induction false} FillPlain(engine: Engine, backend: Option<string>, t: Tables, rows: seq<LabelRow>,
                                     key: string, ip: string)
    ensures var plain := Fill(engine, backend, t, rows).0.plain; var e := Effective(engine, backend, rows);
            && Get(plain, key) == Or(LastText(engine, e, key), Get(t.plain, key))
            && SuffixKey(plain, ip) == Or(SuffixKey(t.plain, ip), NamingKey(engine, e, true, ip))
    decreases |rows|
  {
    hide KindOf, Put, Get, SuffixEntry, SuffixKey;
    if rows == [] || (InScope(rows[0], backend) && Fatal(engine, rows[0])) {
    } else if !InScope(rows[0], backend) {
      FillPlain(engine, backend, t, rows[1..], key, ip);
    } else {
      var row := rows[0];
      FillPlain(engine, backend, File(engine, t, row), rows[1..], key, ip);
      GetPut(t.plain, row.key, row.text, key);
      SuffixKeyPut(t.plain, row.key, row.text, ip);
      assert Effective(engine, backend, rows)[1..] == Effective(engine, backend, rows[1..]);
    }
  }

  lemma {:induction false} FillLists(engine: Engine, backend: Option<string>, t: Tables, rows: seq<LabelRow>)
    ensures var r := Fill(engine, backend, t, rows).0; var e := Effective(engine, backend, rows);
            && r.patterns == t.patterns + PatternRows(engine, e)
            && r.networks == t.networks + NetworkRows(engine, e)
    decreases |rows|
  {
    hide KindOf, Put;
    if rows == [] || (InScope(rows[0], backend) && Fatal(engine, rows[0])) {
    } else if !InScope(rows[0], backend) {
      FillLists(engine, backend, t, rows[1..]);
    } else {
      FillLists(engine, backend, File(engine, t, rows[0]), rows[1..]);
      assert Effective(engine, backend, rows)[1..] == Effective(engine, backend, rows[1..]);
    }
  }

  lemma {:induction false} ExactKey(engine: Engine, rows: seq<LabelRow>, ip: string)
    ensures NamingKey(engine, rows, false, ip) == if LastText(engine, rows, ip).Some? then Some(ip) else None
  {
    if rows != [] {
      ExactKey(engine, rows[1..], ip);
    }
  }

  lemma NothingPlain(key: string)
    ensures Get(NO_TABLES.plain, key).None? && SuffixKey(NO_TABLES.plain, key).None?
  {
  }

  /** The tables answer as the rows they were built from call for. */
  lemma TablesMeanTheRows(engine: Engine, backend: Option<string>, rows: seq<LabelRow>, ip: string)
    ensures Uncached(engine, Fill(engine, backend, NO_TABLES, rows).0, ip)
         == Meaning(engine, Effective(engine, backend, rows), ip)
  {
    hide Fill, Effective, LastText, NamingKey, PatternRows, NetworkRows, PatternLabel, NetworkLabel, Get, SuffixEntry, EndsWith;
    var e := Effective(engine, backend, rows);
    var plain := Fill(engine, backend, NO_TABLES, rows).0.plain;
    FillLists(engine, backend, NO_TABLES, rows);
    assert [] + PatternRows(engine, e) == PatternRows(engine, e);
    assert [] + NetworkRows(engine, e) == NetworkRows(engine, e);
    NothingPlain(ip);
    FillPlain(engine, backend, NO_TABLES, rows, ip, ip);
    ExactKey(engine, e, ip);
    if SuffixEntry(plain, ip).Some? {
      SuffixEntryIsGet(plain, ip);
      var key := SuffixEntry(plain, ip).value.0;
      NothingPlain(key);
      FillPlain(engine, backend, NO_TABLES, rows, key, ip);
    } else {
      NoSuffixNoGet(plain, ip);
    }
  }

  // ----- Results over runs -----

  ghost predicate FirstInFirstOut(w: World) {
    SameKeys(w.cache, LastN(w.admitted, 256))
  }

  lemma LookupKeeps(engine: Engine, w: World, ip: string)
    requires Sound(engine, w.tables, w.cache) && FirstInFirstOut(w)
    ensures Sound(engine, React(engine, w, Lookup(ip)).tables, React(engine, w, Lookup(ip)).cache)
    ensures FirstInFirstOut(React(engine, w, Lookup(ip)))
  {
    hide Uncached, UniqueKeys, Admit, LastN;
    SoundAfter(engine, w.tables, w.cache, ip);
    if Admitted(engine, w.tables, w.cache, ip) {
      var text := Uncached(engine, w.tables, ip).text;
      AdmitNew(w.cache, ip, text);
      SameKeysGrow(w.cache, w.admitted, (ip, text));
    }
    hide Sound;
  }

  ghost predicate SameKeys(cache: Entries<string>, addresses: seq<string>) {
    |cache| == |addresses| && forall i :: 0 <= i < |cache| ==> cache[i].0 == addresses[i]
  }

  lemma SameKeysGrow(cache: Entries<string>, admitted: seq<string>, entry: (string, string))
    requires |cache| <= CACHE_SIZE && SameKeys(cache, LastN(admitted, CACHE_SIZE))
    ensures SameKeys(LastN(cache + [entry], CACHE_SIZE), LastN(admitted + [entry.0], CACHE_SIZE))
  {
  }

  lemma StepKeeps(engine: Engine, w: World, e: Event)
    requires Sound(engine, w.tables, w.cache) && FirstInFirstOut(w)
    ensures Sound(engine, React(engine, w, e).tables, React(engine, w, e).cache)
    ensures FirstInFirstOut(React(engine, w, e))
  {
    match e
    case Rebuild(_, _) =>
    case Lookup(ip) => LookupKeeps(engine, w, ip);
  }

  /** After every event the cache holds exactly the newest addresses admitted since
      the last rebuild, never more than 256, oldest first. */
  lemma {:induction false} CacheIsFirstInFirstOut(engine: Engine, events: seq<Event>)
    ensures var w := Run(engine, events);
            Sound(engine, w.tables, w.cache) && FirstInFirstOut(w) && |w.cache| <= 256
    decreases |events|
  {
    if events != [] {
      CacheIsFirstInFirstOut(engine, events[..|events| - 1]);
      StepKeeps(engine, Run(engine, events[..|events| - 1]), events[|events| - 1]);
    }
  }

  lemma NoRows(engine: Engine)
    ensures Fill(engine, None, NO_TABLES, []).0 == NO_TABLES && Effective(engine, None, []) == []
  {
  }

  lemma {:induction false} LatestTables(engine: Engine, events: seq<Event>, ip: string)
    ensures Uncached(engine, Run(engine, events).tables, ip) == Meaning(engine, Latest(engine, events), ip)
    decreases |events|
  {
    hide Uncached, Meaning, Fill, Effective;
    if events == [] {
      TablesMeanTheRows(engine, None, [], ip);
      NoRows(engine);
    } else {
      match events[|events| - 1]
      case Rebuild(rows, backend) => TablesMeanTheRows(engine, backend, rows, ip);
      case Lookup(_) => LatestTables(engine, events[..|events| - 1], ip);
    }
  }

  /** Whatever was looked up and rebuilt before, the next answer is the one the
      latest label list calls for. */
  lemma CacheTransparent(engine: Engine, events: seq<Event>, ip: string)
    ensures Answer(engine, Run(engine, events), ip) == Meaning(engine, Latest(engine, events), ip)
  {
    hide Uncached, Run, Latest, LastText, NamingKey, PatternRows, NetworkRows, PatternLabel, NetworkLabel, Get;
    var w := Run(engine, events);
    CacheIsFirstInFirstOut(engine, events);
    LatestTables(engine, events, ip);
    if Get(w.cache, ip).Some? {
      SoundHit(engine, w.tables, w.cache, ip);
    }
  }

  // ----- When a lookup throws -----

  // What a key is, by its text: a pattern after a leading slash, else a network if it holds
  // a slash and can be parsed as one, else plain.
  predicate IsPattern(row: LabelRow) {
    row.key != "" && row.key[0] == '/'
  }

  predicate IsNetwork(engine: Engine, row: LabelRow) {
    !IsPattern(row) && '/' in row.key && engine.parseCidr(row.key).Some?
  }

  predicate IsPlain(engine: Engine, row: LabelRow) {
    !IsPattern(row) && !IsNetwork(engine, row)
  }

  lemma KindIs(engine: Engine)
    ensures forall row: LabelRow :: KindOf(engine, row.key).Plain? <==> IsPlain(engine, row)
    ensures forall row: LabelRow :: KindOf(engine, row.key).Pattern? <==> IsPattern(row)
    ensures forall row: LabelRow :: KindOf(engine, row.key).Range? <==> IsNetwork(engine, row)
    ensures forall row: LabelRow :: IsPattern(row) ==> KindOf(engine, row.key).source == row.key[1..]
    ensures forall row: LabelRow :: IsNetwork(engine, row) ==>
              KindOf(engine, row.key).network == engine.parseCidr(row.key).value
  {
  }

  predicate Names(engine: Engine, row: LabelRow, ipv6: bool, ip: string) {
    IsPlain(engine, row) && (row.key == ip || (ipv6 && |row.key| <= |ip| && ip[|ip| - |row.key|..] == row.key))
  }

  predicate Matches(engine: Engine, row: LabelRow, ip: string) {
    IsPattern(row) && engine.matches(row.key[1..], ip)
  }

  predicate Covers(engine: Engine, row: LabelRow, address: Address) {
    IsNetwork(engine, row) &&
    var network := engine.parseCidr(row.key).value;
    network.ipv6 == address.ipv6 && engine.covers(network, address)
  }

  predicate Foreign(engine: Engine, row: LabelRow, address: Address) {
    IsNetwork(engine, row) && engine.parseCidr(row.key).value.ipv6 != address.ipv6
  }

  // Row k is a network of the other family with no covering network before it.
  ghost predicate Bars(engine: Engine, rows: seq<LabelRow>, address: Address, k: nat) {
    && k < |rows| && Foreign(engine, rows[k], address)
    && forall j :: 0 <= j < k ==> !Covers(engine, rows[j], address)
  }

  lemma InCons<T>(s: seq<T>)
    requires s != []
    ensures s[0] in s && forall x :: x in s <==> x == s[0] || x in s[1..]
  {
  }

  lemma {:induction false} NamedIff(engine: Engine, rows: seq<LabelRow>, ipv6: bool, ip: string)
    ensures var key := NamingKey(engine, rows, ipv6, ip);
            && (key.Some? <==> exists row :: row in rows && Names(engine, row, ipv6, ip))
            && (key.Some? ==> LastText(engine, rows, key.value).Some?)
  {
    hide KindOf, IsPlain;
    KindIs(engine);
    if rows != [] {
      NamedIff(engine, rows[1..], ipv6, ip);
      InCons(rows);
      if row :| row in rows[1..] && Names(engine, row, ipv6, ip) {
        assert row in rows;
      }
    }
  }

  lemma {:induction false} MatchedIff(engine: Engine, rows: seq<LabelRow>, ip: string)
    ensures PatternLabel(engine, PatternRows(engine, rows), ip).Some? <==>
              exists row :: row in rows && Matches(engine, row, ip)
  {
    hide KindOf, IsPlain, IsNetwork;
    KindIs(engine);
    if rows != [] {
      MatchedIff(engine, rows[1..], ip);
      InCons(rows);
      if row :| row in rows[1..] && Matches(engine, row, ip) {
        assert row in rows;
      }
      if KindOf(engine, rows[0].key).Pattern? {
        assert PatternRows(engine, rows)[1..] == PatternRows(engine, rows[1..]);
      }
    }
  }

  lemma BarsLater(engine: Engine, rows: seq<LabelRow>, address: Address, k: nat)
    requires rows != [] && k > 0
    ensures Bars(engine, rows, address, k) <==>
              !Covers(engine, rows[0], address) && Bars(engine, rows[1..], address, k - 1)
  {
    hide Covers, Foreign;
    assert forall j :: 0 < j < |rows| ==> rows[1..][j - 1] == rows[j];
    if k < |rows| && Bars(engine, rows, address, k) {
      forall j | 0 <= j < k - 1 ensures !Covers(engine, rows[1..][j], address) {
        assert !Covers(engine, rows[j + 1], address);
      }
    }
  }

  ghost predicate Barred(engine: Engine, rows: seq<LabelRow>, address: Address) {
    exists k :: Bars(engine, rows, address, k)
  }

  lemma BarredCons(engine: Engine, rows: seq<LabelRow>, address: Address)
    requires rows != []
    ensures Barred(engine, rows, address) <==>
              || Foreign(engine, rows[0], address)
              || (!Covers(engine, rows[0], address) && Barred(engine, rows[1..], address))
  {
    hide Covers, Foreign;
    assert Bars(engine, rows, address, 0) <==> Foreign(engine, rows[0], address);
    forall k: nat | k > 0
      ensures Bars(engine, rows, address, k) <==>
                !Covers(engine, rows[0], address) && Bars(engine, rows[1..], address, k - 1)
    {
      BarsLater(engine, rows, address, k);
    }
    hide Bars;
    if k: nat :| Bars(engine, rows[1..], address, k) {
      assert !Covers(engine, rows[0], address) ==> Bars(engine, rows, address, k + 1);
    }
  }

  lemma {:induction false} BarredIff(engine: Engine, rows: seq<LabelRow>, address: Address, ip: string)
    ensures NetworkLabel(engine, NetworkRows(engine, rows), address, ip).Throws? <==> Barred(engine, rows, address)
  {
    hide KindOf;
    KindIs(engine);
    if rows == [] {
      assert !Barred(engine, rows, address);
    } else {
      hide Barred;
      BarredIff(engine, rows[1..], address, ip);
      BarredCons(engine, rows, address);
      if KindOf(engine, rows[0].key).Range? {
        assert NetworkRows(engine, rows)[1..] == NetworkRows(engine, rows[1..]);
      }
    }
  }

  /** After any run a lookup throws exactly when the text is no address, or nothing plain
      names it, no pattern matches it, and a network of the other family comes with no
      covering network before it. */
  lemma LookupThrowsIff(engine: Engine, events: seq<Event>, ip: string)
    ensures Answer(engine, Run(engine, events), ip).Throws? <==>
              ip != "" &&
              match engine.parse(ip)
              case None => true
              case Some(address) =>
                var rows := Latest(engine, events);
                && (forall row :: row in rows ==> !Names(engine, row, address.ipv6, ip))
                && (forall row :: row in rows ==> !Matches(engine, row, ip))
                && Barred(engine, rows, address)
  {
    hide Run, Latest, Answer, NamingKey, LastText, PatternLabel, PatternRows, NetworkLabel, NetworkRows, Barred, Names, Matches;
    CacheTransparent(engine, events, ip);
    if ip != "" && engine.parse(ip).Some? {
      var address, rows := engine.parse(ip).value, Latest(engine, events);
      NamedIff(engine, rows, address.ipv6, ip);
      MatchedIff(engine, rows, ip);
      BarredIff(engine, rows, address, ip);
    }
  }

  // An IPv6 network listed first keeps an IPv4 address from the network that covers it.
  lemma ForeignNetworkBars(engine: Engine, bits: nat, six: Network, four: Network)
    requires engine.parse("10.0.0.1") == Some(Address(false, bits))
    requires engine.parseCidr("fd00::/8") == Some(six) && six.ipv6
    requires engine.parseCidr("10.0.0.0/8") == Some(four) && !four.ipv6 && engine.covers(four, Address(false, bits))
    ensures var rows := [LabelRow("fd00::/8", "six", None), LabelRow("10.0.0.0/8", "four", None)];
            && Covers(engine, rows[1], Address(false, bits))
            && Answer(engine, Run(engine, [Rebuild(rows, None)]), "10.0.0.1") == Throws
  {
    var rows := [LabelRow("fd00::/8", "six", None), LabelRow("10.0.0.0/8", "four", None)];
    assert rows[0].key[0] == 'f' && rows[0].key[6] == '/' && rows[1].key[0] == '1' && rows[1].key[8] == '/';
    assert KindOf(engine, rows[0].key) == Range(six) && KindOf(engine, rows[1].key) == Range(four);
    hide KindOf, Run, Answer;
    assert rows[1..] == [rows[1]] && rows[1..][1..] == [];
    assert Effective(engine, None, []) == [];
    assert Effective(engine, None, rows[1..]) == [rows[1]];
    assert Effective(engine, None, rows) == [rows[0]] + [rows[1]] == rows;
    assert Latest(engine, [Rebuild(rows, None)]) == rows;
    assert Bars(engine, rows, Address(false, bits), 0);
    LookupThrowsIff(engine, [Rebuild(rows, None)], "10.0.0.1");
  }

  // ----- The answer, row by row -----

  // Row k is the first, or the last, of its kind.
  ghost predicate FirstWhere(rows: seq<LabelRow>, p: LabelRow -> bool, k: nat) {
    k < |rows| && p(rows[k]) && forall j :: 0 <= j < k ==> !p(rows[j])
  }

  ghost predicate LastWhere(rows: seq<LabelRow>, p: LabelRow -> bool, k: nat) {
    k < |rows| && p(rows[k]) && forall j :: k < j < |rows| ==> !p(rows[j])
  }

  function Naming(engine: Engine, ipv6: bool, ip: string): LabelRow -> bool {
    (row: LabelRow) => Names(engine, row, ipv6, ip)
  }

  function Keyed(engine: Engine, key: string): LabelRow -> bool {
    (row: LabelRow) => IsPlain(engine, row) && row.key == key
  }

  function Matching(engine: Engine, ip: string): LabelRow -> bool {
    (row: LabelRow) => Matches(engine, row, ip)
  }

  function Deciding(engine: Engine, address: Address): LabelRow -> bool {
    (row: LabelRow) => Foreign(engine, row, address) || Covers(engine, row, address)
  }

  // The answer some rows call for: by the first plain row that names the address, with the
  // text of the last row of its key; else by the first pattern that matches; else by the
  // first network that covers the address or is of the other family, which throws; else
  // the address itself.
  ghost predicate Says(engine: Engine, rows: seq<LabelRow>, ip: string, outcome: Outcome) {
    if ip == "" then outcome == Label("Inner")
    else
      match engine.parse(ip)
      case None => outcome == Throws
      case Some(address) =>
        var naming, matching, deciding :=
          Naming(engine, address.ipv6, ip), Matching(engine, ip), Deciding(engine, address);
        if exists row :: row in rows && naming(row) then
          exists k: nat, l: nat :: && FirstWhere(rows, naming, k) && LastWhere(rows, Keyed(engine, rows[k].key), l)
                         && outcome == Label(rows[l].text)
        else if exists row :: row in rows && matching(row) then
          exists k: nat :: FirstWhere(rows, matching, k) && outcome == Label(rows[k].text)
        else if exists row :: row in rows && deciding(row) then
          exists k: nat :: FirstWhere(rows, deciding, k)
                      && outcome == if Foreign(engine, rows[k], address) then Throws else Label(rows[k].text)
        else outcome == Label(ip)
  }

  lemma FirstBehind(rows: seq<LabelRow>, p: LabelRow -> bool, k: nat)
    requires rows != []
    ensures !p(rows[0]) && FirstWhere(rows[1..], p, k) ==> FirstWhere(rows, p, k + 1)
    ensures p(rows[0]) ==> FirstWhere(rows, p, 0)
    ensures LastWhere(rows[1..], p, k) ==> LastWhere(rows, p, k + 1)
  {
    assert forall j :: 0 < j < |rows| ==> rows[j] == rows[1..][j - 1];
  }

  lemma {:induction false} FirstNaming(engine: Engine, rows: seq<LabelRow>, ipv6: bool, ip: string) returns (k: nat)
    requires exists row :: row in rows && Names(engine, row, ipv6, ip)
    ensures FirstWhere(rows, Naming(engine, ipv6, ip), k) && NamingKey(engine, rows, ipv6, ip) == Some(rows[k].key)
  {
    hide KindOf, IsPlain, FirstWhere;
    KindIs(engine);
    FirstBehind(rows, Naming(engine, ipv6, ip), 0);
    k := 0;
    if !Names(engine, rows[0], ipv6, ip) {
      InCons(rows);
      var rest := FirstNaming(engine, rows[1..], ipv6, ip);
      FirstBehind(rows, Naming(engine, ipv6, ip), rest);
      k := rest + 1;
    }
  }

  lemma {:induction false} LastKeyed(engine: Engine, rows: seq<LabelRow>, key: string) returns (l: nat)
    requires exists row :: row in rows && IsPlain(engine, row) && row.key == key
    ensures LastWhere(rows, Keyed(engine, key), l) && LastText(engine, rows, key) == Some(rows[l].text)
  {
    hide KindOf, IsPlain;
    KindIs(engine);
    InCons(rows);
    if exists row :: row in rows[1..] && IsPlain(engine, row) && row.key == key {
      var rest := LastKeyed(engine, rows[1..], key);
      FirstBehind(rows, Keyed(engine, key), rest);
      l := rest + 1;
    } else {
      NoLaterKey(engine, rows[1..], key);
      l := 0;
    }
  }

  lemma {:induction false} NoLaterKey(engine: Engine, rows: seq<LabelRow>, key: string)
    requires forall row :: row in rows ==> !(IsPlain(engine, row) && row.key == key)
    ensures LastText(engine, rows, key).None?
  {
    hide KindOf, IsPlain;
    KindIs(engine);
    if rows != [] {
      InCons(rows);
      NoLaterKey(engine, rows[1..], key);
    }
  }

  lemma {:induction false} FirstMatching(engine: Engine, rows: seq<LabelRow>, ip: string) returns (k: nat)
    requires exists row :: row in rows && Matches(engine, row, ip)
    ensures FirstWhere(rows, Matching(engine, ip), k)
    ensures PatternLabel(engine, PatternRows(engine, rows), ip) == Some(rows[k].text)
  {
    hide KindOf, IsPlain, IsNetwork, FirstWhere;
    KindIs(engine);
    FirstBehind(rows, Matching(engine, ip), 0);
    if IsPattern(rows[0]) {
      assert PatternRows(engine, rows)[1..] == PatternRows(engine, rows[1..]);
    }
    k := 0;
    if !Matches(engine, rows[0], ip) {
      InCons(rows);
      var rest := FirstMatching(engine, rows[1..], ip);
      FirstBehind(rows, Matching(engine, ip), rest);
      k := rest + 1;
    }
  }

  lemma {:induction false} FirstDeciding(engine: Engine, rows: seq<LabelRow>, address: Address, ip: string) returns (k: nat)
    ensures (exists row :: row in rows && Deciding(engine, address)(row)) ==>
              && FirstWhere(rows, Deciding(engine, address), k)
              && NetworkLabel(engine, NetworkRows(engine, rows), address, ip)
                 == if Foreign(engine, rows[k], address) then Throws else Label(rows[k].text)
    ensures !(exists row :: row in rows && Deciding(engine, address)(row)) ==>
              NetworkLabel(engine, NetworkRows(engine, rows), address, ip) == Label(ip)
  {
    hide KindOf, FirstWhere;
    KindIs(engine);
    k := 0;
    if rows != [] {
      FirstBehind(rows, Deciding(engine, address), 0);
      InCons(rows);
      if IsNetwork(engine, rows[0]) {
        assert NetworkRows(engine, rows)[1..] == NetworkRows(engine, rows[1..]);
      }
      if !Deciding(engine, address)(rows[0]) {
        var rest := FirstDeciding(engine, rows[1..], address, ip);
        FirstBehind(rows, Deciding(engine, address), rest);
        k := rest + 1;
      }
    }
  }

  lemma MeaningSays(engine: Engine, rows: seq<LabelRow>, ip: string)
    ensures Says(engine, rows, ip, Meaning(engine, rows, ip))
  {
    hide NamingKey, LastText, PatternLabel, PatternRows, NetworkLabel, NetworkRows, FirstWhere, LastWhere, Names, Matches,
         Foreign, Covers, IsPlain;
    if ip != "" && engine.parse(ip).Some? {
      var address := engine.parse(ip).value;
      NamedIff(engine, rows, address.ipv6, ip);
      MatchedIff(engine, rows, ip);
      if exists row :: row in rows && Names(engine, row, address.ipv6, ip) {
        var k := FirstNaming(engine, rows, address.ipv6, ip);
        NamedIsPlain(engine, rows, address.ipv6, ip, k);
        var l := LastKeyed(engine, rows, rows[k].key);
      } else if exists row :: row in rows && Matches(engine, row, ip) {
        var k := FirstMatching(engine, rows, ip);
      } else {
        var k := FirstDeciding(engine, rows, address, ip);
      }
    }
  }

  lemma NamedIsPlain(engine: Engine, rows: seq<LabelRow>, ipv6: bool, ip: string, k: nat)
    requires FirstWhere(rows, Naming(engine, ipv6, ip), k)
    ensures k < |rows| && rows[k] in rows && IsPlain(engine, rows[k])
  {
  }

  /** After any run the answer is what the rows in force say, row by row. */
  lemma AnswerSays(engine: Engine, events: seq<Event>, ip: string)
    ensures Says(engine, Latest(engine, events), ip, Answer(engine, Run(engine, events), ip))
  {
    hide Says, Meaning, Run, Latest, Answer;
    CacheTransparent(engine, events, ip);
    MeaningSays(engine, Latest(engine, events), ip);
  }

  /** A lookup that finds a label for a new address puts it last, the oldest making room past
      256; any other lookup leaves the cache as it is. */
  lemma LookupCaches(engine: Engine, events: seq<Event>, ip: string)
    ensures var w, answer := Run(engine, events), Answer(engine, Run(engine, events), ip);
            var after := Run(engine, events + [Lookup(ip)]).cache;
            && (ip == "" || answer.Throws? || Get(w.cache, ip).Some? ==> after == w.cache)
            && (ip != "" && answer.Label? && Get(w.cache, ip).None? ==>
                  after == LastN(w.cache + [(ip, answer.text)], 256))
  {
    hide Uncached, UniqueKeys, Admit, LastN, Run, Get;
    RunSnoc(engine, events, Lookup(ip));
    CacheIsFirstInFirstOut(engine, events);
    var w := Run(engine, events);
    if Admitted(engine, w.tables, w.cache, ip) {
      AdmitNew(w.cache, ip, Uncached(engine, w.tables, ip).text);
    }
  }

  lemma RunSnoc(engine: Engine, events: seq<Event>, e: Event)
    ensures Run(engine, events + [e]) == React(engine, Run(engine, events), e)
  {
    assert (events + [e])[..|events|] == events;
  }

  // ----- The rows in force -----

  predicate Applies(row: LabelRow, backend: Option<string>) {
    row.scope == None || exists b | b in row.scope.value :: backend == Some(b)
  }

  predicate Breaks(engine: Engine, row: LabelRow) {
    IsPattern(row) && !engine.compiles(row.key[1..])
  }

  // Row i is in scope and comes before any row in scope whose pattern does not compile.
  ghost predicate InForce(engine: Engine, rows: seq<LabelRow>, backend: Option<string>, i: nat) {
    && i < |rows| && Applies(rows[i], backend)
    && forall j :: 0 <= j <= i ==> !(Applies(rows[j], backend) && Breaks(engine, rows[j]))
  }

  lemma ScopeIs(engine: Engine, row: LabelRow, backend: Option<string>)
    ensures InScope(row, backend) <==> Applies(row, backend)
    ensures Fatal(engine, row) <==> Breaks(engine, row)
  {
    KindIs(engine);
  }

  /** Counted are the rows in force, in their order. */
  lemma {:induction false} EffectiveAre(engine: Engine, rows: seq<LabelRow>, backend: Option<string>) returns (at: seq<nat>)
    ensures Picks(Effective(engine, backend, rows), rows, at)
    ensures forall i: nat :: i in at <==> InForce(engine, rows, backend, i)
  {
    at := [];
    if rows != [] {
      hide InScope, Fatal, Applies, Breaks, KindOf, InForce;
      ScopeIs(engine, rows[0], backend);
      ForceCons(engine, rows, backend);
      if !(Applies(rows[0], backend) && Breaks(engine, rows[0])) {
        var rest := EffectiveAre(engine, rows[1..], backend);
        PicksCons(Effective(engine, backend, rows[1..]), rows[1..], rest, rows[0], Applies(rows[0], backend));
        hide Picks, Behind;
        assert [rows[0]] + rows[1..] == rows;
        at := Behind(rest, Applies(rows[0], backend));
      }
    }
  }

  lemma ForceCons(engine: Engine, rows: seq<LabelRow>, backend: Option<string>)
    requires rows != []
    ensures forall i: nat :: i > 0 ==> (InForce(engine, rows, backend, i) <==>
              !(Applies(rows[0], backend) && Breaks(engine, rows[0])) && InForce(engine, rows[1..], backend, i - 1))
    ensures InForce(engine, rows, backend, 0) <==> Applies(rows[0], backend) && !Breaks(engine, rows[0])
  {
    hide Applies, Breaks;
    assert forall j :: 0 < j < |rows| ==> rows[j] == rows[1..][j - 1];
    forall i: nat | i > 0
      ensures InForce(engine, rows, backend, i) <==>
                !(Applies(rows[0], backend) && Breaks(engine, rows[0])) && InForce(engine, rows[1..], backend, i - 1)
    {
      if i < |rows| && InForce(engine, rows, backend, i) {
        forall j | 0 <= j <= i - 1 ensures !(Applies(rows[1..][j], backend) && Breaks(engine, rows[1..][j])) {
          assert rows[1..][j] == rows[j + 1];
        }
      }
    }
  }
}
