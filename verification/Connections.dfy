/** The snapshot-diff watcher of the connections view (zashboard store/connections.ts). */
module Connections {
  import opened Outcomes
  import opened Sequences
  import opened JsMaps
  import opened History

  datatype Message = Message(connections: Option<seq<Connection>>, downloadTotal: int, uploadTotal: int)

  // The store's variables; handed lists the batches given to saveConnectionHistory.
  datatype Tracker = Tracker(
    active: seq<Connection>, closed: seq<Connection>, paused: bool,
    downloadTotal: int, uploadTotal: int,
    previous: Entries<Connection>, handed: seq<seq<Connection>>)

  const START := Tracker([], [], false, 0, 0, [], [])

  const CLOSED_LIMIT := 500

  /** A reported connection with its protocol corrected and its speeds filled in. */
  function Observed(c: Connection, before: Option<Connection>): Connection {
    var network := if (c.metadata.destinationPort == "443" || c.metadata.sniffHost != "") && c.metadata.network == "udp"
                   then "quic" else c.metadata.network;
    c.(metadata := c.metadata.(network := network),
       downloadSpeed := if before.None? then 0 else c.download - before.value.download,
       uploadSpeed := if before.None? then 0 else c.upload - before.value.upload)
  }

  /** The loop over a snapshot: what is left of the old map, the new map, the active list. */
  function Diff(previous: Entries<Connection>, current: Entries<Connection>, active: seq<Connection>,
                snapshot: seq<Connection>)
    : (Entries<Connection>, Entries<Connection>, seq<Connection>)
    decreases |snapshot|
  {
    if snapshot == [] then (previous, current, active)
    else
      var c := Observed(snapshot[0], Get(previous, snapshot[0].id));
      Diff(Remove(previous, c.id), Put(current, c.id, c), active + [c], snapshot[1..])
  }

  function Reported(m: Message): seq<Connection> {
    match m.connections case Some(snapshot) => snapshot case None => []
  }

  function OnMessage(t: Tracker, data: Option<Message>): Tracker {
    match data
    case None => t
    case Some(m) =>
      var t1 := t.(downloadTotal := m.downloadTotal, uploadTotal := m.uploadTotal);
      if t.paused then t1
      else
        var (gone, current, active) := Diff(t.previous, [], [], Reported(m));
        t1.(active := active,
            closed := LastN(t.closed + Values(gone), CLOSED_LIMIT),
            previous := current,
            handed := if gone == [] then t.handed else t.handed + [Values(gone)])
  }

  class ConnectionStore {
    var active: seq<Connection>
    var closed: seq<Connection>
    var paused: bool
    var downloadTotal: int
    var uploadTotal: int
    var previous: JsMap<Connection>
    var handed: seq<seq<Connection>>

    ghost function Value(): Tracker
      reads this, previous
    {
      Tracker(active, closed, paused, downloadTotal, uploadTotal, previous.entries, handed)
    }

    ghost predicate Valid()
      reads this, previous
    {
      previous.Valid()
    }

    constructor ()
      ensures Valid() && fresh(previous) && Value() == START
    {
      active, closed, paused, downloadTotal, uploadTotal, handed := [], [], false, 0, 0, [];
      previous := new JsMap<Connection>();
    }

    method Watch(data: Option<Message>)
      requires Valid()
      modifies this, previous
      ensures Valid() && (previous == old(previous) || fresh(previous))
      ensures Value() == OnMessage(old(Value()), data)
    {
      if data.None? {
        return;
      }
      downloadTotal := data.value.downloadTotal;
      uploadTotal := data.value.uploadTotal;
      if paused {
        return;
      }
      var current := new JsMap<Connection>();
      var snapshot := if data.value.connections.Some? then data.value.connections.value else [];
      var observed: seq<Connection> := [];
      hide Get, Put, Remove, Observed, LastN;
      for i := 0 to |snapshot|
        invariant fresh(current) && current.Valid() && previous.Valid()
        invariant previous == old(previous)
        invariant active == old(active) && closed == old(closed) && handed == old(handed) && !paused
        invariant downloadTotal == data.value.downloadTotal && uploadTotal == data.value.uploadTotal
        invariant Diff(previous.entries, current.entries, observed, snapshot[i..])
               == Diff(old(previous.entries), [], [], snapshot)
      {
        assert snapshot[i..][1..] == snapshot[i + 1..];
        var before := previous.Lookup(snapshot[i].id);
        var connection := Observed(snapshot[i], before);
        ObservedKeepsId(snapshot[i], before);
        previous.Delete(connection.id);
        current.Set(connection.id, connection);
        observed := observed + [connection];
      }
      active := observed;
      var newlyClosed := Values(previous.entries);
      closed := LastN(closed + newlyClosed, CLOSED_LIMIT);
      if |newlyClosed| > 0 {
        handed := handed + [newlyClosed];
      }
      previous := current;
    }

    method SetPaused(value: bool)
      requires Valid()
      modifies this`paused
      ensures Valid() && Value() == old(Value()).(paused := value)
    {
      paused := value;
    }
  }

  lemma ObservedKeepsId(c: Connection, before: Option<Connection>)
    ensures Observed(c, before).id == c.id
  {
  }
}
