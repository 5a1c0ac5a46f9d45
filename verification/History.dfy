/** Aggregated connection history (zashboard store/connHistory.ts). */
module History {
  import opened GoText
  import opened JsMaps

  datatype Metadata = Metadata(
    sourceIP: string, host: string, sniffHost: string, destinationIP: string, destinationPort: string,
    network: string, process: string, processPath: string)

  datatype Connection = Connection(
    id: string, download: int, upload: int, chains: seq<string>, metadata: Metadata,
    downloadSpeed: int, uploadSpeed: int)

  datatype HistoryType = SourceIP | Destination | Process | Outbound

  const ALL_TYPES: seq<HistoryType> := [SourceIP, Destination, Process, Outbound]

  datatype Totals = Totals(download: int, upload: int, count: int)

  const NOTHING := Totals(0, 0, 0)

  // A list of aggregated rows, each under its key.
  type Rows = Entries<Totals>

  function Plus(a: Totals, b: Totals): Totals {
    Totals(a.download + b.download, a.upload + b.upload, a.count + b.count)
  }

  // ----- Keys -----

  /** a || b */
  function Or(a: string, b: string): string {
    if a == "" then b else a
  }

  /** The last two labels of a host name. */
  function LastTwo(host: string): string {
    var labels := Split(host, '.');
    Join(if |labels| > 2 then labels[|labels| - 2..] else labels, ".")
  }

  /** What follows the last slash or backslash. */
  function BaseName(path: string): string {
    if path == "" then ""
    else if path[|path| - 1] == '/' || path[|path| - 1] == '\\' then ""
    else BaseName(path[..|path| - 1]) + [path[|path| - 1]]
  }

  // isIp: whether ipaddr.js accepts the text as an IPv4 or IPv6 address.
  function KeyOf(isIp: string -> bool, t: HistoryType, c: Connection): string {
    match t
    case SourceIP => c.metadata.sourceIP
    case Destination =>
      var host := Or(Or(c.metadata.host, c.metadata.sniffHost), c.metadata.destinationIP);
      if isIp(host) then host else LastTwo(host)
    case Process => Or(Or(c.metadata.process, BaseName(c.metadata.processPath)), "-")
    case Outbound => if c.chains == [] then "-" else Or(c.chains[0], "-")
  }

  // ----- Aggregating and merging -----

  /** Adds a row to the list: onto the row of its key, or at the end. */
  function Absorb(rows: Rows, key: string, t: Totals): Rows {
    Put(rows, key, match Get(rows, key) case Some(before) => Plus(before, t) case None => t)
  }

  function AbsorbAll(rows: Rows, more: Rows): Rows
    decreases |more|
  {
    if more == [] then rows else AbsorbAll(Absorb(rows, more[0].0, more[0].1), more[1..])
  }

  /** Each connection as a row of its own. */
  function Singles(isIp: string -> bool, t: HistoryType, connections: seq<Connection>): (rows: Rows)
    ensures |rows| == |connections|
  {
    if connections == [] then []
    else
      var c := connections[0];
      [(KeyOf(isIp, t, c), Totals(c.download, c.upload, 1))] + Singles(isIp, t, connections[1..])
  }

  function Aggregate(isIp: string -> bool, t: HistoryType, connections: seq<Connection>): Rows {
    AbsorbAll([], Singles(isIp, t, connections))
  }

  /** map.set for every row: of two rows with one key the later wins. */
  function PutAll(rows: Rows, more: Rows): Rows
    decreases |more|
  {
    if more == [] then rows else PutAll(Put(rows, more[0].0, more[0].1), more[1..])
  }

  function Merge(historical: Rows, newData: Rows): Rows {
    AbsorbAll(PutAll([], historical), newData)
  }

  // Adds to the row of the key in place, or sets a new row.
  method AddTo(m: JsMap<Totals>, key: string, t: Totals)
    requires m.Valid()
    modifies m
    ensures m.Valid() && m.entries == Absorb(old(m.entries), key, t)
  {
    var existing := m.Lookup(key);
    if existing.Some? {
      m.Set(key, Totals(existing.value.download + t.download, existing.value.upload + t.upload, existing.value.count + t.count));
    } else {
      m.Set(key, t);
    }
  }

  method AggregateConnections(isIp: string -> bool, t: HistoryType, connections: seq<Connection>) returns (rows: Rows)
    ensures rows == Aggregate(isIp, t, connections)
  {
    hide KeyOf, Absorb;
    var m := new JsMap<Totals>();
    ghost var singles := Singles(isIp, t, connections);
    for i := 0 to |connections|
      invariant fresh(m) && m.Valid()
      invariant singles[i..] == Singles(isIp, t, connections[i..])
      invariant AbsorbAll(m.entries, singles[i..]) == AbsorbAll([], singles)
    {
      var c := connections[i];
      assert connections[i..][1..] == connections[i + 1..];
      assert singles[i..][1..] == singles[i + 1..];
      assert singles[i..][0] == (KeyOf(isIp, t, c), Totals(c.download, c.upload, 1));
      AddTo(m, KeyOf(isIp, t, c), Totals(c.download, c.upload, 1));
    }
    rows := m.entries;
  }

  method MergeAggregatedData(historical: Rows, newData: Rows) returns (rows: Rows)
    ensures rows == Merge(historical, newData)
  {
    hide Put, Absorb;
    var m := new JsMap<Totals>();
    for i := 0 to |historical|
      invariant fresh(m) && m.Valid()
      invariant PutAll(m.entries, historical[i..]) == PutAll([], historical)
    {
      assert historical[i..][1..] == historical[i + 1..];
      m.Set(historical[i].0, historical[i].1);
    }
    for i := 0 to |newData|
      invariant fresh(m) && m.Valid()
      invariant AbsorbAll(m.entries, newData[i..]) == Merge(historical, newData)
    {
      assert newData[i..][1..] == newData[i + 1..];
      AddTo(m, newData[i].0, newData[i].1);
    }
    rows := m.entries;
  }

  // ----- Concurrent saves -----

  // One running saveConnectionHistory: the types it has saved so far.  Between types it
  // awaits the database, so other calls run there.
  datatype Save = Save(batch: seq<Connection>, saved: nat)

  datatype Shared = Shared(data: map<HistoryType, Rows>, saves: seq<Save>)

  function Started(batches: seq<seq<Connection>>): (saves: seq<Save>)
    ensures |saves| == |batches|
  {
    // An empty batch returns before the loop.
    seq(|batches|, i requires 0 <= i < |batches| => Save(batches[i], if batches[i] == [] then |ALL_TYPES| else 0))
  }

  predicate Complete(s: Shared) {
    forall t :: t in ALL_TYPES ==> t in s.data
  }

  predicate CanAdvance(s: Shared, i: nat) {
    i < |s.saves| && s.saves[i].saved < |ALL_TYPES| && Complete(s)
  }

  /** Call i aggregates, merges and stores its next type, without interruption. */
  function Advance(isIp: string -> bool, s: Shared, i: nat): Shared
    requires CanAdvance(s, i)
  {
    var save := s.saves[i];
    var t := ALL_TYPES[save.saved];
    Shared(s.data[t := Merge(s.data[t], Aggregate(isIp, t, save.batch))],
           s.saves[i := save.(saved := save.saved + 1)])
  }

  class AggregatedData {
    var data: map<HistoryType, Rows>

    // One synchronous section of a save.
    method SaveType(isIp: string -> bool, t: HistoryType, batch: seq<Connection>)
      requires t in data
      modifies this
      ensures data == old(data)[t := Merge(old(data)[t], Aggregate(isIp, t, batch))]
    {
      var newAggregated := AggregateConnections(isIp, t, batch);
      var merged := MergeAggregatedData(data[t], newAggregated);
      data := data[t := merged];
    }
  }
}
