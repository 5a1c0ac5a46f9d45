/** From the kernel's snapshots to the aggregated history: watcher, saves and totals together. */
module HistoryOfRuns {
  import opened Outcomes
  import opened JsMaps
  import opened History
  import opened Connections
  import opened HistoryProof
  import ConnectionsProof

  // ----- What ended, read off the snapshots alone -----

  predicate Missing(snapshot: seq<Connection>, id: string) {
    ConnectionsProof.WithId(snapshot, id).None?
  }

  /** The connections of one snapshot that the next one lacks. */
  function GoneTotal(isIp: string -> bool, t: HistoryType, before: seq<Connection>, now: seq<Connection>,
                     key: string): Totals {
    if before == [] then NOTHING
    else Plus(if Missing(now, before[0].id) then Counted(isIp, t, before[0], key) else NOTHING,
              GoneTotal(isIp, t, before[1..], now, key))
  }

  function Previous(snapshots: seq<seq<Connection>>): seq<Connection> {
    if snapshots == [] then [] else snapshots[|snapshots| - 1]
  }

  /** Every lifetime that ended, with its last reading. */
  function EndedTotal(isIp: string -> bool, t: HistoryType, snapshots: seq<seq<Connection>>, key: string): Totals {
    if snapshots == [] then NOTHING
    else
      var init, last := snapshots[..|snapshots| - 1], snapshots[|snapshots| - 1];
      Plus(EndedTotal(isIp, t, init, key), GoneTotal(isIp, t, Previous(init), last, key))
  }

  // ----- The map the watcher keeps -----

  function EntriesGone(isIp: string -> bool, t: HistoryType, m: Entries<Connection>, now: seq<Connection>,
                       key: string): Totals {
    if m == [] then NOTHING
    else Plus(if Missing(now, m[0].0) then Counted(isIp, t, m[0].1, key) else NOTHING,
              EntriesGone(isIp, t, m[1..], now, key))
  }

  lemma {:induction false} AllGone(isIp: string -> bool, t: HistoryType, m: Entries<Connection>, key: string)
    ensures EntriesGone(isIp, t, m, [], key) == SumOf(isIp, t, Values(m), key)
  {
    if m != [] {
      AllGone(isIp, t, m[1..], key);
      assert Values(m)[1..] == Values(m[1..]);
    }
  }

  lemma MissingCons(c: Connection, rest: seq<Connection>, id: string)
    ensures Missing([c] + rest, id) <==> c.id != id && Missing(rest, id)
  {
    assert ([c] + rest)[1..] == rest;
  }

  lemma {:induction false} AbsentGone(isIp: string -> bool, t: HistoryType, m: Entries<Connection>, c: Connection,
                                      rest: seq<Connection>, key: string)
    requires Get(m, c.id).None?
    ensures EntriesGone(isIp, t, m, [c] + rest, key) == EntriesGone(isIp, t, m, rest, key)
  {
    if m != [] {
      MissingCons(c, rest, m[0].0);
      AbsentGone(isIp, t, m[1..], c, rest, key);
    }
  }

  lemma {:induction false} RemovedGone(isIp: string -> bool, t: HistoryType, m: Entries<Connection>, c: Connection,
                                       rest: seq<Connection>, key: string)
    requires UniqueKeys(m)
    ensures EntriesGone(isIp, t, m, [c] + rest, key) == EntriesGone(isIp, t, Remove(m, c.id), rest, key)
  {
    hide Missing, Counted;
    if m != [] {
      MissingCons(c, rest, m[0].0);
      if m[0].0 == c.id {
        AbsentGone(isIp, t, m[1..], c, rest, key);
        NothingMore(EntriesGone(isIp, t, m[1..], rest, key));
      } else {
        RemovedGone(isIp, t, m[1..], c, rest, key);
        assert Remove(m, c.id)[1..] == Remove(m[1..], c.id);
      }
    }
  }

  lemma NothingMore(a: Totals)
    ensures Plus(NOTHING, a) == a
  {
  }

  // What the loop leaves of the old map counts as what the snapshot lacks.
  lemma {:induction false} DiffGone(isIp: string -> bool, t: HistoryType, previous: Entries<Connection>,
                                    current: Entries<Connection>, active: seq<Connection>, snapshot: seq<Connection>, key: string)
    requires UniqueKeys(previous)
    ensures SumOf(isIp, t, Values(Diff(previous, current, active, snapshot).0), key)
         == EntriesGone(isIp, t, previous, snapshot, key)
    decreases |snapshot|
  {
    hide EntriesGone, SumOf, Remove, Put, UniqueKeys;
    if snapshot == [] {
      AllGone(isIp, t, previous, key);
    } else {
      var c := Observed(snapshot[0], Get(previous, snapshot[0].id));
      RemovedGone(isIp, t, previous, snapshot[0], snapshot[1..], key);
      RemoveUnique(previous, c.id);
      DiffGone(isIp, t, Remove(previous, c.id), Put(current, c.id, c), active + [c], snapshot[1..], key);
      assert [snapshot[0]] + snapshot[1..] == snapshot;
    }
  }

  // The map holds a snapshot: the same ids, counted the same.
  ghost predicate Holds(m: Entries<Connection>, snapshot: seq<Connection>) {
    && |m| == |snapshot|
    && forall i :: 0 <= i < |m| ==>
         && m[i].0 == snapshot[i].id
         && forall isIp, t, key :: Counted(isIp, t, m[i].1, key) == Counted(isIp, t, snapshot[i], key)
  }

  lemma ObservedCounts(c: Connection, before: Option<Connection>)
    ensures forall isIp, t, key :: Counted(isIp, t, Observed(c, before), key) == Counted(isIp, t, c, key)
  {
  }

  lemma HoldsMore(m: Entries<Connection>, snapshot: seq<Connection>, c: Connection, raw: Connection)
    requires Holds(m, snapshot) && c.id == raw.id
    requires forall isIp, t, key :: Counted(isIp, t, c, key) == Counted(isIp, t, raw, key)
    ensures Holds(m + [(c.id, c)], snapshot + [raw])
  {
    hide Counted;
  }

  lemma {:induction false} DiffHolds(previous: Entries<Connection>, current: Entries<Connection>,
                                     active: seq<Connection>,
                                     done: seq<Connection>, snapshot: seq<Connection>)
    requires ConnectionsProof.UniqueIds(snapshot) && UniqueKeys(current) && Holds(current, done)
    requires forall i :: 0 <= i < |snapshot| ==> Get(current, snapshot[i].id).None?
    ensures Holds(Diff(previous, current, active, snapshot).1, done + snapshot)
    decreases |snapshot|
  {
    hide Observed, Remove, Counted, Holds, UniqueKeys, Get;
    if snapshot == [] {
      assert done + snapshot == done;
    } else {
      var c := Observed(snapshot[0], Get(previous, snapshot[0].id));
      ObservedKeepsId(snapshot[0], Get(previous, snapshot[0].id));
      ObservedCounts(snapshot[0], Get(previous, snapshot[0].id));
      PutUnique(current, c.id, c);
      HoldsMore(current, done, c, snapshot[0]);
      forall i | 0 <= i < |snapshot| - 1 ensures Get(Put(current, c.id, c), snapshot[1..][i].id).None? {
        GetPut(current, c.id, c, snapshot[i + 1].id);
        assert snapshot[1..][i] in snapshot[1..] && snapshot[1..][i] == snapshot[i + 1];
      }
      DiffHolds(Remove(previous, c.id), Put(current, c.id, c), active + [c], done + [snapshot[0]], snapshot[1..]);
      assert done + [snapshot[0]] + snapshot[1..] == done + snapshot;
    }
  }

  lemma {:induction false} HeldGone(isIp: string -> bool, t: HistoryType, m: Entries<Connection>,
                                    before: seq<Connection>,
                                    now: seq<Connection>, key: string)
    requires Holds(m, before)
    ensures EntriesGone(isIp, t, m, now, key) == GoneTotal(isIp, t, before, now, key)
    decreases |m|
  {
    hide Counted, Missing;
    if m != [] {
      HeldGone(isIp, t, m[1..], before[1..], now, key);
    }
  }

  // ----- Any run -----

  lemma {:induction false} HandedTotal(isIp: string -> bool, t: HistoryType, snapshots: seq<seq<Connection>>,
                                       key: string)
    requires forall k :: 0 <= k < |snapshots| ==> ConnectionsProof.UniqueIds(snapshots[k])
    ensures var w := ConnectionsProof.Watch(snapshots);
            && SumOf(isIp, t, w.handed, key) == EndedTotal(isIp, t, snapshots, key)
            && Holds(w.previous, Previous(snapshots)) && ConnectionsProof.Sound(w.previous)
    decreases |snapshots|
  {
    hide SumOf, GoneTotal, EntriesGone, Diff, Holds, ConnectionsProof.Sound, ConnectionsProof.UniqueIds;
    if snapshots == [] {
      NothingHeld(isIp, t, key);
    } else {
      var init, last := snapshots[..|snapshots| - 1], snapshots[|snapshots| - 1];
      HandedTotal(isIp, t, init, key);
      StepTotal(isIp, t, ConnectionsProof.Watch(init), Previous(init), last, key);
    }
  }

  lemma NothingHeld(isIp: string -> bool, t: HistoryType, key: string)
    ensures SumOf(isIp, t, [], key) == NOTHING && Holds([], []) && ConnectionsProof.Sound([])
  {
  }

  lemma StepTotal(isIp: string -> bool, t: HistoryType, w: ConnectionsProof.Watched, before: seq<Connection>,
                  last: seq<Connection>, key: string)
    requires Holds(w.previous, before) && ConnectionsProof.Sound(w.previous) && ConnectionsProof.UniqueIds(last)
    ensures var w' := ConnectionsProof.WatchNext(w, last);
            && SumOf(isIp, t, w'.handed, key) == Plus(SumOf(isIp, t, w.handed, key), GoneTotal(isIp, t, before, last, key))
            && Holds(w'.previous, last) && ConnectionsProof.Sound(w'.previous)
  {
    hide SumOf, GoneTotal, EntriesGone, Diff, Holds, ConnectionsProof.UniqueIds, Plus;
    var gone := Diff(w.previous, [], [], last).0;
    SumOfConcat(isIp, t, w.handed, Values(gone), key);
    DiffGone(isIp, t, w.previous, [], [], last, key);
    HeldGone(isIp, t, w.previous, before, last, key);
    NothingHeld(isIp, t, key);
    DiffHolds(w.previous, [], [], [], last);
    assert [] + last == last;
    ConnectionsProof.NothingSeen("");
    ConnectionsProof.DiffPerId(w.previous, [], [], last, "");
    hide ConnectionsProof.Sound;
  }

  lemma {:induction false} SumOfConcat(isIp: string -> bool, t: HistoryType, a: seq<Connection>,
                                       b: seq<Connection>, key: string)
    ensures SumOf(isIp, t, a + b, key) == Plus(SumOf(isIp, t, a, key), SumOf(isIp, t, b, key))
  {
    hide Counted, Plus;
    if a == [] {
      assert a + b == b;
      NothingMore(SumOf(isIp, t, b, key));
    } else {
      SumOfConcat(isIp, t, a[1..], b, key);
      assert (a + b)[1..] == a[1..] + b;
      PlusLaws(Counted(isIp, t, a[0], key), SumOf(isIp, t, a[1..], key), SumOf(isIp, t, b, key));
    }
  }

  lemma {:induction false} BatchesTotal(isIp: string -> bool, t: HistoryType, batches: seq<seq<Connection>>,
                                        key: string)
    ensures SumOfBatches(isIp, t, batches, key) == SumOf(isIp, t, ConnectionsProof.Flatten(batches), key)
    decreases |batches|
  {
    hide SumOf, Plus;
    if batches == [] {
      NothingHeld(isIp, t, key);
    } else {
      BatchesTotal(isIp, t, batches[..|batches| - 1], key);
      SumOfConcat(isIp, t, ConnectionsProof.Flatten(batches[..|batches| - 1]), batches[|batches| - 1], key);
    }
  }

  /** After any run of messages and pauses, and any interleaving of the saves it starts, every
      type holds per key what it held before plus the last readings of exactly the lifetimes
      that ended, each counted once. */
  lemma HistoryIsEndedLifetimes(isIp: string -> bool, events: seq<ConnectionsProof.Event>, data: map<HistoryType,
                                Rows>,
                                schedule: seq<nat>, t: HistoryType, key: string)
    requires var snapshots := ConnectionsProof.Processed(events);
             forall k :: 0 <= k < |snapshots| ==> ConnectionsProof.UniqueIds(snapshots[k])
    requires var s := Shared(data, Started(ConnectionsProof.Run(events).handed));
             && Ready(s) && IsSchedule(isIp, s, schedule)
             && forall save :: save in After(isIp, s, schedule).saves ==> save.saved >= |ALL_TYPES|
    ensures var end := After(isIp, Shared(data, Started(ConnectionsProof.Run(events).handed)), schedule);
            && t in data && t in end.data
            && TotalOf(end.data[t], key)
               == Plus(TotalOf(data[t], key), EndedTotal(isIp, t, ConnectionsProof.Processed(events), key))
  {
    hide Ready, IsSchedule, After, SumOf, SumOfBatches, EndedTotal, TotalOf, Plus, ConnectionsProof.UniqueIds,
         ConnectionsProof.Run, ConnectionsProof.Processed, ConnectionsProof.Watch, ConnectionsProof.Flatten,
         ConnectionsProof.Sound, Holds;
    var batches := ConnectionsProof.Run(events).handed;
    AllSavesMerged(isIp, data, batches, schedule, t, key);
    BatchesTotal(isIp, t, batches, key);
    ConnectionsProof.RunIsWatch(events);
    HandedTotal(isIp, t, ConnectionsProof.Processed(events), key);
  }
}
