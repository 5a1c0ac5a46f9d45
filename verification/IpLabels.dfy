/** The labels of source addresses and their cache (zashboard helper/sourceip.ts). */
module IpLabels {
  import opened Outcomes
  import opened Sequences
  import opened JsMaps

  const CACHE_SIZE := 256

  datatype LabelRow = LabelRow(key: string, text: string, scope: Option<seq<string>>)

  datatype Address = Address(ipv6: bool, bits: nat)

  datatype Network = Network(ipv6: bool, bits: nat, prefix: int)

  // The address library and the regular-expression engine.
  datatype Engine = Engine(
    parse: string -> Option<Address>,
    parseCidr: string -> Option<Network>,
    covers: (Network, Address) -> bool,
    compiles: string -> bool,
    matches: (string, string) -> bool)

  datatype Tables = Tables(
    plain: Entries<string>, patterns: seq<(string, string)>, networks: seq<(Network, string)>)

  const NO_TABLES := Tables([], [], [])

  datatype Outcome = Label(text: string) | Throws

  // ----- Rebuilding the tables -----

  predicate InScope(row: LabelRow, backend: Option<string>) {
    row.scope.None? || (backend.Some? && backend.value in row.scope.value)
  }

  datatype Kind = Plain | Pattern(source: string) | Range(network: Network)

  function KindOf(engine: Engine, key: string): Kind {
    if key != "" && key[0] == '/' then Pattern(key[1..])
    else if '/' in key && engine.parseCidr(key).Some? then Range(engine.parseCidr(key).value)
    else Plain
  }

  // A pattern that does not compile throws out of the whole rebuild.
  predicate Fatal(engine: Engine, row: LabelRow) {
    var kind := KindOf(engine, row.key);
    kind.Pattern? && !engine.compiles(kind.source)
  }

  function File(engine: Engine, t: Tables, row: LabelRow): Tables {
    match KindOf(engine, row.key)
    case Plain => t.(plain := Put(t.plain, row.key, row.text))
    case Pattern(source) => t.(patterns := t.patterns + [(source, row.text)])
    case Range(network) => t.(networks := t.networks + [(network, row.text)])
  }

  /** The tables filled so far, the rows still to come, and whether the rebuild throws. */
  function Fill(engine: Engine, backend: Option<string>, t: Tables, rows: seq<LabelRow>): (Tables, bool)
    decreases |rows|
  {
    if rows == [] then (t, false)
    else if !InScope(rows[0], backend) then Fill(engine, backend, t, rows[1..])
    else if Fatal(engine, rows[0]) then (t, true)
    else Fill(engine, backend, File(engine, t, rows[0]), rows[1..])
  }

  // ----- Looking up without the cache -----

  predicate EndsWith(s: string, suffix: string) {
    |suffix| <= |s| && s[|s| - |suffix|..] == suffix
  }

  function SuffixEntry(m: Entries<string>, ip: string): Option<(string, string)> {
    if m == [] then None else if EndsWith(ip, m[0].0) then Some(m[0]) else SuffixEntry(m[1..], ip)
  }

  function PatternLabel(engine: Engine, patterns: seq<(string, string)>, ip: string): Option<string> {
    if patterns == [] then None
    else if engine.matches(patterns[0].0, ip) then Some(patterns[0].1)
    else PatternLabel(engine, patterns[1..], ip)
  }

  // Matching against a network of the other address family throws.
  function NetworkLabel(engine: Engine, networks: seq<(Network, string)>, address: Address, ip: string): Outcome {
    if networks == [] then Label(ip)
    else if networks[0].0.ipv6 != address.ipv6 then Throws
    else if engine.covers(networks[0].0, address) then Label(networks[0].1)
    else NetworkLabel(engine, networks[1..], address, ip)
  }

  function Uncached(engine: Engine, t: Tables, ip: string): Outcome {
    if ip == "" then Label("Inner")
    else
      match engine.parse(ip)
      case None => Throws
      case Some(address) =>
        var suffix := SuffixEntry(t.plain, ip);
        if address.ipv6 && suffix.Some? then Label(suffix.value.1)
        else if Get(t.plain, ip).Some? then Label(Get(t.plain, ip).value)
        else if PatternLabel(engine, t.patterns, ip).Some? then Label(PatternLabel(engine, t.patterns, ip).value)
        else NetworkLabel(engine, t.networks, address, ip)
  }

  // ----- The cache -----

  function Admit(cache: Entries<string>, ip: string, text: string): Entries<string> {
    var c := Put(cache, ip, text);
    if |c| > CACHE_SIZE && c[0].0 != "" then Remove(c, c[0].0) else c
  }

  // Only a new address with an answer enters the cache.
  predicate Admitted(engine: Engine, t: Tables, cache: Entries<string>, ip: string) {
    ip != "" && Get(cache, ip).None? && Uncached(engine, t, ip).Label?
  }

  function CacheAfter(engine: Engine, t: Tables, cache: Entries<string>, ip: string): Entries<string> {
    if Admitted(engine, t, cache, ip) then Admit(cache, ip, Uncached(engine, t, ip).text) else cache
  }

  // What the cache answers is what the tables would answer.
  ghost predicate Sound(engine: Engine, t: Tables, cache: Entries<string>) {
    && UniqueKeys(cache)
    && |cache| <= CACHE_SIZE
    && forall e :: e in cache ==> e.0 != "" && Uncached(engine, t, e.0) == Label(e.1)
  }

  lemma AdmitNew(cache: Entries<string>, ip: string, text: string)
    requires UniqueKeys(cache) && |cache| <= CACHE_SIZE && ip != "" && Get(cache, ip).None?
    requires forall e :: e in cache ==> e.0 != ""
    ensures UniqueKeys(Admit(cache, ip, text))
    ensures Admit(cache, ip, text) == LastN(cache + [(ip, text)], CACHE_SIZE)
  {
    hide UniqueKeys;
    PutUnique(cache, ip, text);
    var c := Put(cache, ip, text);
    if |c| > CACHE_SIZE {
      assert c[0] in cache;
      RemoveUnique(c, c[0].0);
      assert Remove(c, c[0].0) == c[1..];
    }
  }

  lemma SoundAfter(engine: Engine, t: Tables, cache: Entries<string>, ip: string)
    requires Sound(engine, t, cache)
    ensures Sound(engine, t, CacheAfter(engine, t, cache, ip))
  {
    hide Uncached, UniqueKeys, Admit;
    if Admitted(engine, t, cache, ip) {
      var text := Uncached(engine, t, ip).text;
      AdmitNew(cache, ip, text);
      assert forall e :: e in LastN(cache + [(ip, text)], CACHE_SIZE) ==> e in cache || e == (ip, text);
    }
  }

  lemma SoundHit(engine: Engine, t: Tables, cache: Entries<string>, ip: string)
    requires Sound(engine, t, cache) && Get(cache, ip).Some?
    ensures ip != "" && Uncached(engine, t, ip) == Label(Get(cache, ip).value)
  {
  }

  class IpLabelStore {
    const engine: Engine
    var cache: JsMap<string>
    var plain: JsMap<string>
    var patterns: seq<(string, string)>
    var networks: seq<(Network, string)>

    ghost function Value(): Tables
      reads this, plain
    {
      Tables(plain.entries, patterns, networks)
    }

    ghost predicate Valid()
      reads this, cache, plain
    {
      cache != plain && plain.Valid() && Sound(engine, Value(), cache.entries)
    }

    constructor (engine: Engine)
      ensures Valid() && fresh(cache) && fresh(plain)
      ensures this.engine == engine && Value() == NO_TABLES && cache.entries == []
    {
      this.engine := engine;
      patterns, networks := [], [];
      cache := new JsMap<string>();
      plain := new JsMap<string>();
    }

    method PreprocessSourceIPList(rows: seq<LabelRow>, backend: Option<string>) returns (threw: bool)
      requires Valid()
      modifies this, cache, plain
      ensures Valid() && cache == old(cache) && plain == old(plain)
      ensures (Value(), threw) == Fill(engine, backend, NO_TABLES, rows)
      ensures cache.entries == []
    {
      cache.Clear();
      plain.Clear();
      patterns, networks := [], [];
      for i := 0 to |rows|
        invariant cache == old(cache) && plain == old(plain) && cache != plain
        invariant plain.Valid() && cache.entries == []
        invariant Fill(engine, backend, Value(), rows[i..]) == Fill(engine, backend, NO_TABLES, rows)
      {
        hide Put, UniqueKeys;
        assert rows[i..][1..] == rows[i + 1..];
        var row := rows[i];
        if !InScope(row, backend) {
          continue;
        }
        var kind := KindOf(engine, row.key);
        match kind
        case Pattern(source) =>
          if !engine.compiles(source) {
            return true;
          }
          patterns := patterns + [(source, row.text)];
        case Range(network) =>
          networks := networks + [(network, row.text)];
        case Plain =>
          plain.Set(row.key, row.text);
      }
      return false;
    }

    method CacheResult(ip: string, text: string) returns (r: string)
      requires cache.Valid()
      modifies cache
      ensures r == text
      ensures cache.Valid() && cache.entries == Admit(old(cache.entries), ip, text)
    {
      cache.Set(ip, text);
      if |cache.entries| > CACHE_SIZE {
        var firstKey := cache.entries[0].0;
        if firstKey != "" {
          cache.Delete(firstKey);
        }
      }
      return text;
    }

    method SuffixLabel(ip: string) returns (text: Option<string>)
      ensures text == match SuffixEntry(plain.entries, ip) case None => None case Some(e) => Some(e.1)
    {
      for i := 0 to |plain.entries|
        invariant SuffixEntry(plain.entries[i..], ip) == SuffixEntry(plain.entries, ip)
      {
        assert plain.entries[i..][1..] == plain.entries[i + 1..];
        if EndsWith(ip, plain.entries[i].0) {
          return Some(plain.entries[i].1);
        }
      }
      return None;
    }

    method MatchingPattern(ip: string) returns (text: Option<string>)
      ensures text == PatternLabel(engine, patterns, ip)
    {
      for i := 0 to |patterns|
        invariant PatternLabel(engine, patterns[i..], ip) == PatternLabel(engine, patterns, ip)
      {
        assert patterns[i..][1..] == patterns[i + 1..];
        if engine.matches(patterns[i].0, ip) {
          return Some(patterns[i].1);
        }
      }
      return None;
    }

    method MatchingNetwork(address: Address, ip: string) returns (outcome: Outcome)
      ensures outcome == NetworkLabel(engine, networks, address, ip)
    {
      for i := 0 to |networks|
        invariant NetworkLabel(engine, networks[i..], address, ip) == NetworkLabel(engine, networks, address, ip)
      {
        assert networks[i..][1..] == networks[i + 1..];
        if networks[i].0.ipv6 != address.ipv6 {
          return Throws;
        }
        if engine.covers(networks[i].0, address) {
          return Label(networks[i].1);
        }
      }
      return Label(ip);
    }

    /** Transparent: the answer is the one the tables give without a cache. */
    method GetIPLabelFromMap(ip: string) returns (outcome: Outcome)
      requires Valid()
      modifies cache
      ensures Valid()
      ensures outcome == Uncached(engine, Value(), ip)
      ensures cache.entries == CacheAfter(engine, Value(), old(cache.entries), ip)
    {
      hide UniqueKeys, Admit, Put, Remove;
      if ip == "" {
        return Label("Inner");
      }
      var hit := cache.Lookup(ip);
      if hit.Some? {
        SoundHit(engine, Value(), cache.entries, ip);
        return Label(hit.value);
      }
      ghost var tables := Value();
      SoundAfter(engine, tables, cache.entries, ip);
      var parsed := engine.parse(ip);
      if parsed.None? {
        return Throws;
      }
      var address := parsed.value;
      var found: Option<string> := None;
      if address.ipv6 {
        found := SuffixLabel(ip);
      }
      if found.None? {
        found := plain.Lookup(ip);
      }
      if found.None? {
        found := MatchingPattern(ip);
      }
      if found.None? {
        outcome := MatchingNetwork(address, ip);
        if outcome.Throws? {
          return;
        }
        found := Some(outcome.text);
      }
      assert Uncached(engine, tables, ip) == Label(found.value);
      var cached := CacheResult(ip, found.value);
      return Label(cached);
    }
  }
}
