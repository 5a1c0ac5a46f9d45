/** What the watcher hands to history and what it shows, lifetime by lifetime. */
module ConnectionsProof {
  import opened Outcomes
  import opened Sequences
  import opened JsMaps
  import opened History
  import opened Connections

  // ----- Lifetimes -----

  datatype Direction = Down | Up

  function Total(d: Direction, c: Connection): int {
    if d.Down? then c.download else c.upload
  }

  function Speed(d: Direction, c: Connection): int {
    if d.Down? then c.downloadSpeed else c.uploadSpeed
  }

  function WithId(snapshot: seq<Connection>, id: string): Option<Connection> {
    Find(snapshot, (c: Connection) => c.id == id)
  }

  predicate UniqueIds(snapshot: seq<Connection>) {
    snapshot == [] || (WithId(snapshot[1..], snapshot[0].id).None? && UniqueIds(snapshot[1..]))
  }

  /** What successive snapshots say of one id, absent or a number. */
  function Trace(pick: Connection -> int, snapshots: seq<seq<Connection>>, id: string): (trace: seq<Option<int>>)
    ensures |trace| == |snapshots|
  {
    if snapshots == [] then [] else Trace(pick, Init(snapshots), id) + [Reading(pick, Last(snapshots), id)]
  }

  function Reading(pick: Connection -> int, snapshot: seq<Connection>, id: string): Option<int> {
    match WithId(snapshot, id) case None => None case Some(c) => Some(pick(c))
  }

  function Init<T>(s: seq<T>): seq<T>
    requires s != []
  {
    s[..|s| - 1]
  }

  function Last<T>(s: seq<T>): T
    requires s != []
  {
    s[|s| - 1]
  }

  predicate Present(trace: seq<Option<int>>) {
    trace != [] && Last(trace).Some?
  }

  predicate NonEmptyRuns(runs: seq<seq<int>>) {
    forall k :: 0 <= k < |runs| ==> runs[k] != []
  }

  /** The maximal runs of consecutive presence. */
  function Lifetimes(trace: seq<Option<int>>): (runs: seq<seq<int>>)
    ensures NonEmptyRuns(runs)
    ensures Present(trace) ==> runs != []
  {
    if trace == [] then []
    else
      var runs := Lifetimes(Init(trace));
      match Last(trace)
      case None => runs
      case Some(x) => if Present(Init(trace)) then Init(runs) + [Last(runs) + [x]] else runs + [[x]]
  }

  function Lasts(runs: seq<seq<int>>): (lasts: seq<int>)
    requires NonEmptyRuns(runs)
  {
    if runs == [] then [] else Lasts(Init(runs)) + [Last(Last(runs))]
  }

  function Sum(s: seq<int>): int {
    if s == [] then 0 else Sum(Init(s)) + Last(s)
  }

  // ----- Lifetimes of a trace -----

  /** The last readings before each disappearance. */
  function Ended(trace: seq<Option<int>>): seq<int> {
    if trace == [] then [] else Ended(Init(trace)) + EndedNow(Init(trace), Last(trace))
  }

  function EndedNow(before: seq<Option<int>>, x: Option<int>): seq<int> {
    if x.None? then Live(before) else []
  }

  function Live(trace: seq<Option<int>>): seq<int> {
    if Present(trace) then [Last(trace).value] else []
  }

  /** Each reading against the one right before it, zero at the start of a lifetime. */
  function Deltas(trace: seq<Option<int>>): (deltas: seq<Option<int>>)
    ensures |deltas| == |trace|
  {
    if trace == [] then [] else Deltas(Init(trace)) + [Delta(Init(trace), Last(trace))]
  }

  function Delta(before: seq<Option<int>>, x: Option<int>): Option<int> {
    match x
    case None => None
    case Some(n) => Some(if Present(before) then n - Last(before).value else 0)
  }

  lemma SnocCancels(a: seq<int>, x: int, b: seq<int>, y: int)
    requires a + [x] == b + [y]
    ensures a == b && x == y
  {
    assert a == (a + [x])[..|a|] && b == (b + [y])[..|b|];
    assert x == (a + [x])[|a|] && y == (b + [y])[|b|];
  }

  lemma LastsSnoc(runs: seq<seq<int>>, last: seq<int>)
    requires NonEmptyRuns(runs) && last != []
    ensures Lasts(runs + [last]) == Lasts(runs) + [Last(last)]
  {
  }

  // Every lifetime has ended, with its last reading, or is still live.
  lemma {:induction false} EndedOrLive(trace: seq<Option<int>>)
    ensures Ended(trace) + Live(trace) == Lasts(Lifetimes(trace))
    ensures Present(trace) ==> Last(Last(Lifetimes(trace))) == Last(trace).value
  {
    if trace != [] {
      var init := Init(trace);
      EndedOrLive(init);
      var runs := Lifetimes(init);
      if Last(trace).Some? {
        var x := Last(trace).value;
        if Present(init) {
          LastsSnoc(Init(runs), Last(runs));
          assert Init(runs) + [Last(runs)] == runs;
          LastsSnoc(Init(runs), Last(runs) + [x]);
          SnocCancels(Ended(init), Last(init).value, Lasts(Init(runs)), Last(Last(runs)));
        } else {
          LastsSnoc(runs, [x]);
        }
      }
    }
  }

  lemma SumSnoc(s: seq<int>, x: int)
    ensures Sum(s + [x]) == Sum(s) + x
  {
  }

  // The differences along each lifetime add up to its last minus its first reading.
  lemma {:induction false} DeltasTelescope(trace: seq<Option<int>>)
    ensures Present(Deltas(trace)) <==> Present(trace)
    ensures Telescoped(Lifetimes(trace), Lifetimes(Deltas(trace)))
  {
    hide Telescoped;
    if trace == [] {
      TelescopedNone();
    } else {
      var init := Init(trace);
      DeltasTelescope(init);
      EndedOrLive(init);
      assert Init(Deltas(trace)) == Deltas(init);
      var runs, steps := Lifetimes(init), Lifetimes(Deltas(init));
      if Last(trace).Some? {
        var x := Last(trace).value;
        if Present(init) {
          TelescopedLonger(runs, steps, x);
        } else {
          TelescopedMore(runs, steps, x);
        }
      }
    }
  }

  // Run by run, the steps sum to the last reading minus the first.
  ghost predicate Telescoped(runs: seq<seq<int>>, steps: seq<seq<int>>) {
    && |steps| == |runs|
    && forall k :: 0 <= k < |runs| ==> runs[k] != [] && Sum(steps[k]) == Last(runs[k]) - runs[k][0]
  }

  lemma TelescopedNone()
    ensures Telescoped([], [])
  {
  }

  lemma TelescopedLonger(runs: seq<seq<int>>, steps: seq<seq<int>>, x: int)
    requires Telescoped(runs, steps) && runs != []
    ensures Telescoped(Init(runs) + [Last(runs) + [x]], Init(steps) + [Last(steps) + [x - Last(Last(runs))]])
  {
  }

  lemma TelescopedMore(runs: seq<seq<int>>, steps: seq<seq<int>>, x: int)
    requires Telescoped(runs, steps)
    ensures Telescoped(runs + [[x]], steps + [[0]])
  {
  }

  // ----- The watcher over the snapshots it processes -----

  datatype Watched = Watched(previous: Entries<Connection>, handed: seq<Connection>, shown: seq<seq<Connection>>)

  function Watch(snapshots: seq<seq<Connection>>): (w: Watched)
    ensures |w.shown| == |snapshots|
  {
    if snapshots == [] then Watched([], [], []) else WatchNext(Watch(Init(snapshots)), Last(snapshots))
  }

  function WatchNext(w: Watched, snapshot: seq<Connection>): Watched {
    var (gone, current, active) := Diff(w.previous, [], [], snapshot);
    Watched(current, w.handed + Values(gone), w.shown + [active])
  }

  datatype Event = Data(message: Option<Message>) | SetPaused(value: bool)

  function React(t: Tracker, e: Event): Tracker {
    match e
    case Data(m) => OnMessage(t, m)
    case SetPaused(value) => t.(paused := value)
  }

  function Run(events: seq<Event>): Tracker {
    if events == [] then START else React(Run(Init(events)), Last(events))
  }

  /** The snapshots of a run that were not skipped by a pause. */
  function Processed(events: seq<Event>): seq<seq<Connection>> {
    if events == [] then [] else Processed(Init(events)) + Taken(Run(Init(events)), Last(events))
  }

  function Taken(t: Tracker, e: Event): seq<seq<Connection>> {
    if e.Data? && e.message.Some? && !t.paused then [Reported(e.message.value)] else []
  }

  function Flatten<T>(batches: seq<seq<T>>): seq<T> {
    if batches == [] then [] else Flatten(batches[..|batches| - 1]) + batches[|batches| - 1]
  }

  lemma FlattenSnoc<T>(batches: seq<seq<T>>, last: seq<T>)
    ensures Flatten(batches + [last]) == Flatten(batches) + last
  {
  }

  ghost predicate Mirrors(t: Tracker, w: Watched) {
    && t.previous == w.previous
    && Flatten(t.handed) == w.handed
    && t.closed == LastN(w.handed, 500)
    && (w.shown != [] ==> t.active == Last(w.shown))
  }

  lemma TakenMirrors(t: Tracker, w: Watched, m: Message)
    requires Mirrors(t, w) && !t.paused
    ensures Mirrors(OnMessage(t, Some(m)), WatchNext(w, Reported(m)))
  {
    hide Diff, Flatten, LastN, Reported;
    var gone := Diff(w.previous, [], [], Reported(m)).0;
    LastNConcat(w.handed, Values(gone), CLOSED_LIMIT);
    FlattenSnoc(t.handed, Values(gone));
    assert gone == [] ==> w.handed + Values(gone) == w.handed;
  }

  // The store is the watcher on the processed snapshots; the closed list is the end of
  // everything handed over.
  lemma {:induction false} RunIsWatch(events: seq<Event>)
    ensures Mirrors(Run(events), Watch(Processed(events)))
    decreases |events|
  {
    assert Mirrors(START, Watch([]));
    if events != [] {
      var init, last := Init(events), Last(events);
      RunIsWatch(init);
      var t := Run(init);
      if Taken(t, last) == [] {
        assert Processed(events) == Processed(init);
        assert Mirrors(React(t, last), Watch(Processed(init)));
      } else {
        TakenMirrors(t, Watch(Processed(init)), last.message.value);
        WatchSnoc(Processed(init), Reported(last.message.value));
      }
    }
    hide Mirrors, WatchNext, React;
  }

  // ----- One snapshot, one id -----

  predicate Keyed(m: Entries<Connection>) {
    forall e :: e in m ==> e.0 == e.1.id
  }

  lemma {:induction false} PutKeyed(m: Entries<Connection>, c: Connection)
    requires Keyed(m)
    ensures Keyed(Put(m, c.id, c))
  {
    if m != [] && m[0].0 != c.id {
      PutKeyed(m[1..], c);
    }
  }

  lemma {:induction false} RemoveKeyed(m: Entries<Connection>, id: string)
    requires Keyed(m)
    ensures Keyed(Remove(m, id))
  {
    if m != [] && m[0].0 != id {
      RemoveKeyed(m[1..], id);
    }
  }

  ghost predicate Sound(m: Entries<Connection>) {
    UniqueKeys(m) && Keyed(m)
  }

  lemma {:induction false} FindAppend(a: seq<Connection>, c: Connection, id: string)
    ensures WithId(a + [c], id) == if WithId(a, id).Some? then WithId(a, id) else if c.id == id then Some(c) else None
  {
    if a != [] && a[0].id != id {
      FindAppend(a[1..], c, id);
      assert (a + [c])[1..] == a[1..] + [c];
    } else if a == [] {
      assert (a + [c])[1..] == [];
    }
  }

  function Seen(snapshot: seq<Connection>, previous: Entries<Connection>, id: string): Option<Connection> {
    match WithId(snapshot, id)
    case None => None
    case Some(c) => Some(Observed(c, Get(previous, id)))
  }

  lemma DiffSound(previous: Entries<Connection>, current: Entries<Connection>, c: Connection)
    requires Sound(previous) && Sound(current)
    ensures Sound(Remove(previous, c.id)) && Sound(Put(current, c.id, c))
  {
    RemoveUnique(previous, c.id);
    RemoveKeyed(previous, c.id);
    PutUnique(current, c.id, c);
    PutKeyed(current, c);
  }

  // For every id the loop leaves, keeps and shows what a set comparison would.
  lemma {:induction false} DiffPerId(previous: Entries<Connection>, current: Entries<Connection>,
                                     active: seq<Connection>,
                                     snapshot: seq<Connection>, id: string)
    requires Sound(previous) && Sound(current) && UniqueIds(snapshot)
    requires WithId(snapshot, id).Some? ==> WithId(active, id).None?
    ensures var (gone, current', active') := Diff(previous, current, active, snapshot);
            && Sound(gone) && Sound(current')
            && Get(gone, id) == (if WithId(snapshot, id).Some? then None else Get(previous, id))
            && Get(current', id) == (if WithId(snapshot, id).Some? then Seen(snapshot, previous, id) else Get(current, id))
            && WithId(active', id) == (if WithId(snapshot, id).Some? then Seen(snapshot, previous, id) else WithId(active, id))
    decreases |snapshot|
  {
    if snapshot != [] {
      var c := Observed(snapshot[0], Get(previous, snapshot[0].id));
      DiffSound(previous, current, c);
      GetRemove(previous, c.id, id);
      GetPut(current, c.id, c, id);
      FindAppend(active, c, id);
      hide Sound, Get, Put, Remove;
      DiffPerId(Remove(previous, c.id), Put(current, c.id, c), active + [c], snapshot[1..], id);
    }
  }

  function TotalsOf(pick: Connection -> int, handed: seq<Connection>, id: string): seq<int> {
    if handed == [] then []
    else
      var last := handed[|handed| - 1];
      TotalsOf(pick, handed[..|handed| - 1], id) + if last.id == id then [pick(last)] else []
  }

  lemma {:induction false} TotalsAppend(pick: Connection -> int, a: seq<Connection>, b: seq<Connection>, id: string)
    ensures TotalsOf(pick, a + b, id) == TotalsOf(pick, a, id) + TotalsOf(pick, b, id)
    decreases |b|
  {
    if b == [] {
      assert a + b == a;
    } else {
      assert (a + b)[..|a + b| - 1] == a + b[..|b| - 1];
      TotalsAppend(pick, a, b[..|b| - 1], id);
    }
  }

  lemma {:induction false} TotalsOfMap(pick: Connection -> int, m: Entries<Connection>, id: string)
    requires Sound(m)
    ensures TotalsOf(pick, Values(m), id) == match Get(m, id) case None => [] case Some(c) => [pick(c)]
  {
    if m != [] {
      TotalsOfMap(pick, m[1..], id);
      var head := [m[0].1];
      assert Values(m) == head + Values(m[1..]);
      TotalsAppend(pick, head, Values(m[1..]), id);
      assert head[..0] == [];
      assert m[0] in m;
      assert TotalsOf(pick, head, id) == if m[0].0 == id then [pick(m[0].1)] else [];
    }
  }

  // ----- A run, one id -----

  // The state agrees with the trace of the snapshots so far.
  ghost predicate Agrees(d: Direction, snapshots: seq<seq<Connection>>, id: string) {
    var w, trace := Watch(snapshots), Trace(Totals(d), snapshots, id);
    && Sound(w.previous)
    && Get(w.previous, id).Some? == Present(trace)
    && (Present(trace) ==> Total(d, Get(w.previous, id).value) == Last(trace).value)
    && TotalsOf(Totals(d), w.handed, id) == Ended(trace)
    && Trace(Speeds(d), w.shown, id) == Deltas(trace)
  }

  function Totals(d: Direction): Connection -> int { (c: Connection) => Total(d, c) }

  function Speeds(d: Direction): Connection -> int { (c: Connection) => Speed(d, c) }

  lemma TraceSnoc(pick: Connection -> int, snapshots: seq<seq<Connection>>, last: seq<Connection>, id: string)
    ensures Trace(pick, snapshots + [last], id) == Trace(pick, snapshots, id) + [Reading(pick, last, id)]
  {
  }

  lemma EndedSnoc(trace: seq<Option<int>>, x: Option<int>)
    ensures Ended(trace + [x]) == Ended(trace) + EndedNow(trace, x)
    ensures Deltas(trace + [x]) == Deltas(trace) + [Delta(trace, x)]
  {
  }

  lemma ObservedReads(d: Direction, c: Connection, before: Option<Connection>)
    ensures Total(d, Observed(c, before)) == Total(d, c)
    ensures Speed(d, Observed(c, before)) == match before case None => 0 case Some(b) => Total(d, c) - Total(d, b)
  {
  }

  lemma WatchSnoc(init: seq<seq<Connection>>, last: seq<Connection>)
    ensures Watch(init + [last]) == WatchNext(Watch(init), last)
  {
  }

  // What one more snapshot leaves, keeps and shows of an id, given the id's trace.
  lemma NothingSeen(id: string)
    ensures Sound([]) && WithId([], id).None? && Get<Connection>([], id).None?
  {
  }

  lemma StepReadings(d: Direction, previous: Entries<Connection>, trace: seq<Option<int>>, last: seq<Connection>,
                     id: string)
    requires Sound(previous) && UniqueIds(last)
    requires Get(previous, id).Some? == Present(trace)
    requires Present(trace) ==> Total(d, Get(previous, id).value) == Last(trace).value
    ensures var (gone, current, active) := Diff(previous, [], [], last);
            var x := Reading(Totals(d), last, id);
            && Sound(current)
            && Get(current, id).Some? == x.Some?
            && (x.Some? ==> Total(d, Get(current, id).value) == x.value)
            && TotalsOf(Totals(d), Values(gone), id) == EndedNow(trace, x)
            && Reading(Speeds(d), active, id) == Delta(trace, x)
  {
    hide Diff, Sound, WithId, Get, Observed, TotalsOf, UniqueIds;
    NothingSeen(id);
    var (gone, current, active) := Diff(previous, [], [], last);
    DiffPerId(previous, [], [], last, id);
    TotalsOfMap(Totals(d), gone, id);
    var found := WithId(last, id);
    if found.Some? {
      ObservedReads(d, found.value, Get(previous, id));
    }
  }

  lemma StepAgrees(d: Direction, init: seq<seq<Connection>>, last: seq<Connection>, id: string)
    requires Agrees(d, init, id) && UniqueIds(last)
    ensures Agrees(d, init + [last], id)
  {
    hide Watch, Diff, Trace, Ended, EndedNow, Deltas, Delta, TotalsOf, Sound, WithId, Reading, UniqueIds;
    var w, trace := Watch(init), Trace(Totals(d), init, id);
    var (gone, current, active) := Diff(w.previous, [], [], last);
    WatchSnoc(init, last);
    StepReadings(d, w.previous, trace, last, id);
    TotalsAppend(Totals(d), w.handed, Values(gone), id);
    TraceSnoc(Totals(d), init, last, id);
    TraceSnoc(Speeds(d), w.shown, active, id);
    EndedSnoc(trace, Reading(Totals(d), last, id));
  }

  lemma NothingAgrees(d: Direction, id: string)
    ensures Agrees(d, [], id)
  {
  }

  lemma {:induction false} RunAgrees(d: Direction, snapshots: seq<seq<Connection>>, id: string)
    requires forall k :: 0 <= k < |snapshots| ==> UniqueIds(snapshots[k])
    ensures Agrees(d, snapshots, id)
    decreases |snapshots|
  {
    hide Agrees, UniqueIds;
    NothingAgrees(d, id);
    if snapshots != [] {
      RunAgrees(d, Init(snapshots), id);
      StepAgrees(d, Init(snapshots), Last(snapshots), id);
      assert Init(snapshots) + [Last(snapshots)] == snapshots;
    }
  }

  // ----- Main results -----

  // After any run of messages and pauses, for every id and both directions: what was
  // handed to history, in order, is the last reading of each ended lifetime, once per
  // disappearance; with the live reading, every lifetime is accounted for.
  lemma HandedIsEndedLifetimes(d: Direction, events: seq<Event>, id: string)
    requires forall k :: 0 <= k < |Processed(events)| ==> UniqueIds(Processed(events)[k])
    ensures var t, trace := Run(events), Trace(Totals(d), Processed(events), id);
            && TotalsOf(Totals(d), Flatten(t.handed), id) == Ended(trace)
            && TotalsOf(Totals(d), Flatten(t.handed), id) + Live(trace) == Lasts(Lifetimes(trace))
            && (Get(t.previous, id).Some? <==> Present(trace))
            && (Present(trace) ==> Live(trace) == [Total(d, Get(t.previous, id).value)])
  {
    RunIsWatch(events);
    RunAgrees(d, Processed(events), id);
    EndedOrLive(Trace(Totals(d), Processed(events), id));
    hide Run, Processed, Watch, Trace, Ended, Deltas, Lifetimes, Lasts, TotalsOf, Flatten;
  }

  lemma {:induction false} SumAppend(a: seq<int>, b: seq<int>)
    ensures Sum(a + b) == Sum(a) + Sum(b)
    decreases |b|
  {
    if b == [] {
      assert a + b == a;
    } else {
      assert Init(a + b) == a + Init(b);
      SumAppend(a, Init(b));
    }
  }

  // Bytes handed over plus bytes still live are the last-seen totals of all lifetimes.
  lemma BytesConserved(d: Direction, events: seq<Event>, id: string)
    requires forall k :: 0 <= k < |Processed(events)| ==> UniqueIds(Processed(events)[k])
    ensures Sum(TotalsOf(Totals(d), Flatten(Run(events).handed), id))
            + (match Get(Run(events).previous, id) case None => 0 case Some(c) => Total(d, c))
         == Sum(Lasts(Lifetimes(Trace(Totals(d), Processed(events), id))))
  {
    HandedIsEndedLifetimes(d, events, id);
    var trace := Trace(Totals(d), Processed(events), id);
    SumAppend(Ended(trace), Live(trace));
    if Present(trace) {
      SumSnoc([], Last(trace).value);
      assert [] + Live(trace) == Live(trace);
    }
    hide Run, Processed, Trace, Ended, Lifetimes, Lasts, TotalsOf, Flatten;
  }

  // The speeds shown along each lifetime add up to its last minus its first total.
  lemma SpeedsAddUp(d: Direction, snapshots: seq<seq<Connection>>, id: string)
    requires forall k :: 0 <= k < |snapshots| ==> UniqueIds(snapshots[k])
    ensures var totals := Lifetimes(Trace(Totals(d), snapshots, id));
            var speeds := Lifetimes(Trace(Speeds(d), Watch(snapshots).shown, id));
            && |speeds| == |totals|
            && forall k :: 0 <= k < |totals| ==> Sum(speeds[k]) == Last(totals[k]) - totals[k][0]
  {
    RunAgrees(d, snapshots, id);
    DeltasTelescope(Trace(Totals(d), snapshots, id));
    hide Watch, Trace, Deltas, Lifetimes, Sum;
  }

  // ----- What is shown, and what is kept as it came -----

  /** A shown connection is the reported one, with quic for udp that looks like it and the
      speeds since the reading before. */
  lemma ObservedIs(c: Connection, before: Option<Connection>)
    ensures var o, m := Observed(c, before), c.metadata;
            && o.id == c.id && o.download == c.download && o.upload == c.upload && o.chains == c.chains
            && o.metadata.(network := m.network) == m
            && (o.metadata.network == "quic" <==>
                  m.network == "quic" || (m.network == "udp" && (m.destinationPort == "443" || m.sniffHost != "")))
            && (o.metadata.network != "quic" ==> o.metadata.network == m.network)
            && o.downloadSpeed == (match before case None => 0 case Some(b) => c.download - b.download)
            && o.uploadSpeed == (match before case None => 0 case Some(b) => c.upload - b.upload)
  {
  }

  // One connection shown for each reported, in order.
  lemma {:induction false} DiffShows(previous: Entries<Connection>, current: Entries<Connection>, active: seq<Connection>,
                                     snapshot: seq<Connection>)
    requires UniqueIds(snapshot)
    ensures var shown := Diff(previous, current, active, snapshot).2;
            && |shown| == |active| + |snapshot| && shown[..|active|] == active
            && forall i :: 0 <= i < |snapshot| ==>
                 shown[|active| + i] == Observed(snapshot[i], Get(previous, snapshot[i].id))
    decreases |snapshot|
  {
    hide Observed, Remove, Put, Get;
    if snapshot != [] {
      var c := Observed(snapshot[0], Get(previous, snapshot[0].id));
      ObservedIs(snapshot[0], Get(previous, snapshot[0].id));
      DiffShows(Remove(previous, c.id), Put(current, c.id, c), active + [c], snapshot[1..]);
      forall i | 0 < i < |snapshot| ensures Get(Remove(previous, c.id), snapshot[i].id) == Get(previous, snapshot[i].id) {
        assert snapshot[i] == snapshot[1..][i - 1] && snapshot[1..][i - 1] in snapshot[1..];
        GetRemoveOther(previous, c.id, snapshot[i].id);
      }
      var shown := Diff(previous, current, active, snapshot).2;
      forall i | 0 <= i < |snapshot|
        ensures shown[|active| + i] == Observed(snapshot[i], Get(previous, snapshot[i].id))
      {
        if i > 0 {
          assert shown[|active| + i] == shown[|active + [c]| + (i - 1)];
        } else {
          assert shown[|active|] == shown[..|active| + 1][|active|];
        }
      }
      assert shown[..|active|] == shown[..|active| + 1][..|active|];
    }
  }

  lemma {:induction false} GetRemoveOther(m: Entries<Connection>, key: string, other: string)
    requires key != other
    ensures Get(Remove(m, key), other) == Get(m, other)
  {
    if m != [] && m[0].0 != key {
      GetRemoveOther(m[1..], key, other);
    }
  }

  // What the loop leaves of the old map, in its order.
  function Lacking(m: Entries<Connection>, snapshot: seq<Connection>): Entries<Connection> {
    if m == [] then []
    else if WithId(snapshot, m[0].0).None? then [m[0]] + Lacking(m[1..], snapshot)
    else Lacking(m[1..], snapshot)
  }

  lemma {:induction false} DiffLeaves(previous: Entries<Connection>, current: Entries<Connection>, active: seq<Connection>,
                                      snapshot: seq<Connection>)
    requires UniqueKeys(previous)
    ensures Diff(previous, current, active, snapshot).0 == Lacking(previous, snapshot)
    decreases |snapshot|
  {
    hide Observed, Put, UniqueKeys, Remove;
    if snapshot == [] {
      NoneLacking(previous);
    } else {
      var c := Observed(snapshot[0], Get(previous, snapshot[0].id));
      ObservedIs(snapshot[0], Get(previous, snapshot[0].id));
      RemoveUnique(previous, c.id);
      DiffLeaves(Remove(previous, c.id), Put(current, c.id, c), active + [c], snapshot[1..]);
      LackingOneMore(previous, snapshot);
    }
  }

  lemma {:induction false} NoneLacking(m: Entries<Connection>)
    ensures Lacking(m, []) == m
  {
    if m != [] {
      NoneLacking(m[1..]);
    }
  }

  lemma {:induction false} LackingOneMore(m: Entries<Connection>, snapshot: seq<Connection>)
    requires snapshot != [] && UniqueKeys(m)
    ensures Lacking(Remove(m, snapshot[0].id), snapshot[1..]) == Lacking(m, snapshot)
  {
    if m != [] {
      if m[0].0 == snapshot[0].id {
        NotLacking(m[1..], snapshot);
      } else {
        LackingOneMore(m[1..], snapshot);
        assert Remove(m, snapshot[0].id)[1..] == Remove(m[1..], snapshot[0].id);
      }
    }
  }

  lemma {:induction false} NotLacking(m: Entries<Connection>, snapshot: seq<Connection>)
    requires snapshot != [] && Get(m, snapshot[0].id).None?
    ensures Lacking(m, snapshot[1..]) == Lacking(m, snapshot)
  {
    if m != [] {
      NotLacking(m[1..], snapshot);
    }
  }

  // The messages of a run, paused or not.
  function LatestTotals(events: seq<Event>): (int, int) {
    if events == [] then (0, 0)
    else
      match Last(events)
      case Data(Some(m)) => (m.downloadTotal, m.uploadTotal)
      case _ => LatestTotals(Init(events))
  }

  function LatestPause(events: seq<Event>): bool {
    if events == [] then false
    else
      match Last(events)
      case SetPaused(value) => value
      case _ => LatestPause(Init(events))
  }

  /** The totals are always those of the latest message, pauses included; the pause is the
      latest one set. */
  lemma {:induction false} TotalsAreLatest(events: seq<Event>)
    ensures (Run(events).downloadTotal, Run(events).uploadTotal) == LatestTotals(events)
    ensures Run(events).paused == LatestPause(events)
    decreases |events|
  {
    hide Diff, LastN;
    if events != [] {
      TotalsAreLatest(Init(events));
    }
  }

  lemma MapIsSound(events: seq<Event>)
    requires forall k :: 0 <= k < |Processed(events)| ==> UniqueIds(Processed(events)[k])
    ensures UniqueKeys(Run(events).previous)
  {
    RunIsWatch(events);
    RunAgrees(Down, Processed(events), "");
    hide Run, Processed, Watch, UniqueIds, Get, TotalsOf, Trace, Ended, Deltas, LastN, Flatten;
  }

  // One message that is taken: its connections are shown in order, each against the reading
  // before; what the old map held beyond them is closed, in the old order, and handed over
  // when there is anything.
  ghost predicate Shows(t: Tracker, t': Tracker, snapshot: seq<Connection>) {
    var gone := Values(Lacking(t.previous, snapshot));
    && |t'.active| == |snapshot|
    && (forall i :: 0 <= i < |snapshot| ==> t'.active[i] == Observed(snapshot[i], Get(t.previous, snapshot[i].id)))
    && t'.closed == LastN(t.closed + gone, 500)
    && t'.handed == (if gone == [] then t.handed else t.handed + [gone])
  }

  lemma MessageStep(t: Tracker, m: Message)
    requires !t.paused && UniqueIds(Reported(m)) && UniqueKeys(t.previous)
    ensures Shows(t, OnMessage(t, Some(m)), Reported(m))
  {
    hide Observed, Get, Lacking, LastN, Diff, UniqueIds, UniqueKeys, Reported;
    DiffShows(t.previous, [], [], Reported(m));
    DiffLeaves(t.previous, [], [], Reported(m));
  }

  /** After any run a message without a pause shows and closes so, an absent list as none. */
  lemma MessageShows(events: seq<Event>, m: Message)
    requires !Run(events).paused && UniqueIds(Reported(m))
    requires forall k :: 0 <= k < |Processed(events)| ==> UniqueIds(Processed(events)[k])
    ensures Shows(Run(events), OnMessage(Run(events), Some(m)),
                  if m.connections.Some? then m.connections.value else [])
  {
    hide Run, Processed, UniqueIds, UniqueKeys, Shows, OnMessage;
    MapIsSound(events);
    MessageStep(Run(events), m);
  }
}
