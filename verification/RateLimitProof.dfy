/** Both rate limiters refine the sliding log; what follows for runs of requests. */
module RateLimitProof {
  import opened Outcomes
  import opened Sequences
  import opened RateLimit

  ghost predicate Sorted(s: seq<int>) {
    forall i, j :: 0 <= i < j < |s| ==> s[i] <= s[j]
  }

  ghost predicate SortedUpTo(s: seq<int>, now: int) {
    Sorted(s) && forall i :: 0 <= i < |s| ==> s[i] <= now
  }

  // ----- The in-memory limiter refines the sliding log -----

  function Dropped(q: seq<int>, entries: seq<int>): int { |entries| - |q| }

  // A queue holds the latest entries of the log, in seconds; whatever the last max
  // entries lack of it has expired.
  ghost predicate Queues(q: seq<int>, entries: seq<int>, max: nat, expiration: int, clock: int) {
    && |q| <= max
    && |q| <= |entries|
    && SortedUpTo(entries, clock)
    && (forall i :: 0 <= i < |q| ==> q[i] == Seconds(entries[Dropped(q, entries) + i]))
    && (|q| < max ==> forall i :: 0 <= i < Dropped(q, entries) ==> Seconds(clock) - Seconds(entries[i]) > expiration)
  }

  function Queue(store: Store, key: string): seq<int> {
    if key in store then store[key] else []
  }

  ghost predicate StoreRefines(limit: Limits, expiration: int, store: Store, log: Log, clock: int) {
    forall key :: Queues(Queue(store, key), Entries(log, key), Effective(limit(key)), expiration, clock)
  }

  function OfferTo(q: seq<int>, max: nat, duration: int, clock: int): (bool, seq<int>) {
    Offer(if q == [] then None else Some(q), max, duration, Seconds(clock))
  }

  // One request gets the log's answer.
  lemma OfferAnswers(q: seq<int>, entries: seq<int>, max: nat, expiration: int, duration: int, clock: int)
    requires Queues(q, entries, Effective(max), expiration, clock) && duration <= expiration + 1
    ensures OfferTo(q, max, duration, clock).0 == Admits(SecondsApart, entries, Effective(max), duration, clock)
  {
  }

  // And the queue goes on holding the latest entries.
  lemma OfferQueues(q: seq<int>, entries: seq<int>, max: nat, expiration: int, duration: int, clock: int)
    requires Queues(q, entries, Effective(max), expiration, clock)
    ensures Queues(OfferTo(q, max, duration, clock).1,
                   if OfferTo(q, max, duration, clock).0 then entries + [clock] else entries,
                   Effective(max), expiration, clock)
  {
  }

  lemma SweepRefines(q: seq<int>, entries: seq<int>, max: nat, expiration: int, clock: int)
    requires Queues(q, entries, max, expiration, clock)
    requires q != [] && Seconds(clock) - q[|q| - 1] > expiration
    ensures Queues([], entries, max, expiration, clock)
  {
  }

  lemma StoreRefinesLater(limit: Limits, expiration: int, store: Store, log: Log, clock: int, later: int)
    requires StoreRefines(limit, expiration, store, log, clock) && clock <= later
    ensures StoreRefines(limit, expiration, store, log, later)
  {
  }

  lemma SweepStepRefines(limit: Limits, expiration: int, store: Store, log: Log, clock: int)
    requires NoEmptyQueue(store) && StoreRefines(limit, expiration, store, log, clock)
    ensures StoreRefines(limit, expiration, Swept(store, expiration, Seconds(clock)), log, clock)
  {
    var store' := Swept(store, expiration, Seconds(clock));
    forall key
      ensures Queues(Queue(store', key), Entries(log, key), Effective(limit(key)), expiration, clock)
    {
      assert Queues(Queue(store, key), Entries(log, key), Effective(limit(key)), expiration, clock);
      if key in store && key !in store' {
        SweepRefines(store[key], Entries(log, key), Effective(limit(key)), expiration, clock);
      }
    }
  }

  lemma RequestStepRefines(limit: Limits, expiration: int, store: Store, log: Log, e: Event)
    requires NoEmptyQueue(store) && StoreRefines(limit, expiration, store, log, e.clock)
    requires e.Request? && e.duration <= expiration + 1
    ensures var (ok, queue) := Offer(QueueOf(store, e.key), limit(e.key), e.duration, Seconds(e.clock));
            && ok == Admits(SecondsApart, Entries(log, e.key), Effective(limit(e.key)), e.duration, e.clock)
            && StoreRefines(limit, expiration, store[e.key := queue], Logged(SecondsApart, limit, log, e), e.clock)
  {
    var q := Queue(store, e.key);
    assert Queues(q, Entries(log, e.key), Effective(limit(e.key)), expiration, e.clock);
    OfferAnswers(q, Entries(log, e.key), limit(e.key), expiration, e.duration, e.clock);
    OfferQueues(q, Entries(log, e.key), limit(e.key), expiration, e.duration, e.clock);
    assert QueueOf(store, e.key) == if q == [] then None else Some(q);
    var store' := store[e.key := Offer(QueueOf(store, e.key), limit(e.key), e.duration, Seconds(e.clock)).1];
    var log' := Logged(SecondsApart, limit, log, e);
    hide Offer, Admits, Queues;
    forall key
      ensures Queues(Queue(store', key), Entries(log', key), Effective(limit(key)), expiration, e.clock)
    {
      assert Queues(Queue(store, key), Entries(log, key), Effective(limit(key)), expiration, e.clock);
    }
  }

  // With sweeps at any moments, every answer is the sliding log's.
  lemma {:induction false} MemoryRefinesLog(limit: Limits, expiration: int, store: Store, log: Log, clock: int,
                                            events: seq<Event>)
    requires NoEmptyQueue(store) && StoreRefines(limit, expiration, store, log, clock)
    requires Timely(clock, events) && DurationsAtMost(expiration + 1, events)
    ensures MemoryRun(limit, expiration, store, events) == LogRun(SecondsApart, limit, log, events)
    decreases |events|
  {
    if events != [] {
      hide StoreRefines, Offer, Admits;
      var e := events[0];
      StoreRefinesLater(limit, expiration, store, log, clock, e.clock);
      if e.Sweep? {
        SweepStepRefines(limit, expiration, store, log, e.clock);
        MemoryRefinesLog(limit, expiration, Swept(store, expiration, Seconds(e.clock)), log, e.clock, events[1..]);
      } else {
        RequestStepRefines(limit, expiration, store, log, e);
        var store' := store[e.key := Offer(QueueOf(store, e.key), limit(e.key), e.duration, Seconds(e.clock)).1];
        MemoryRefinesLog(limit, expiration, store', Logged(SecondsApart, limit, log, e), e.clock, events[1..]);
      }
    }
  }

  lemma FreshStoreRefines(limit: Limits, expiration: int, clock: int)
    ensures StoreRefines(limit, expiration, map[], map[], clock)
  {
  }

  // ----- Sweeps are invisible -----

  lemma {:induction false} LogIgnoresSweeps(meter: Meter, limit: Limits, log: Log, events: seq<Event>)
    ensures LogRun(meter, limit, log, WithoutSweeps(events)) == LogRun(meter, limit, log, events)
    decreases |events|
  {
    if events != [] {
      if events[0].Sweep? {
        LogIgnoresSweeps(meter, limit, log, events[1..]);
      } else {
        LogIgnoresSweeps(meter, limit, Logged(meter, limit, log, events[0]), events[1..]);
        assert WithoutSweeps(events)[1..] == WithoutSweeps(events[1..]);
      }
    }
  }

  lemma {:induction false} WithoutSweepsTimely(from: int, events: seq<Event>, bound: int)
    requires Timely(from, events) && DurationsAtMost(bound, events)
    ensures Timely(from, WithoutSweeps(events)) && DurationsAtMost(bound, WithoutSweeps(events))
    decreases |events|
  {
    if events != [] {
      WithoutSweepsTimely(events[0].clock, events[1..], bound);
      TimelyFromEarlier(from, events[0].clock, WithoutSweeps(events[1..]));
    }
  }

  lemma TimelyFromEarlier(from: int, later: int, events: seq<Event>)
    requires from <= later && Timely(later, events)
    ensures Timely(from, events)
  {
  }

  lemma SweepsInvisible(limit: Limits, expiration: int, events: seq<Event>, start: int)
    requires Timely(start, events) && DurationsAtMost(expiration + 1, events)
    ensures MemoryRun(limit, expiration, map[], events) == MemoryRun(limit, expiration, map[], WithoutSweeps(events))
  {
    WithoutSweepsTimely(start, events, expiration + 1);
    MemoryRefinesLog(limit, expiration, map[], map[], start, events);
    MemoryRefinesLog(limit, expiration, map[], map[], start, WithoutSweeps(events));
    LogIgnoresSweeps(SecondsApart, limit, map[], events);
  }

  // Runs in which every request of every key asks for the same window.
  ghost predicate UniformRun(duration: int, events: seq<Event>) {
    Timely(0, events) && forall e :: e in events && e.Request? ==> e.duration == duration
  }

  ghost predicate SweepsNeverShow(limit: Limits, expiration: int, duration: int) {
    forall events :: UniformRun(duration, events) ==>
      MemoryRun(limit, expiration, map[], events) == MemoryRun(limit, expiration, map[], WithoutSweeps(events))
  }

  // A burst that fills a queue at time zero, a sweep just late enough to drop it, and
  // one more request.
  function Burst(key: string, duration: int, n: nat): seq<Event> {
    Repeat(Request(key, duration, 0), n)
  }

  function LateSweep(key: string, duration: int, expiration: nat): seq<Event> {
    [Sweep(1000 * (expiration + 1)), Request(key, duration, 1000 * (expiration + 1))]
  }

  function OnlyQueue(key: string, q: seq<int>): (store: Store)
    ensures NoEmptyQueue(store)
  {
    if q == [] then map[] else map[key := q]
  }

  lemma BurstStep(limit: Limits, expiration: int, key: string, duration: int, n: nat, q: seq<int>, rest: seq<Event>)
    requires n > 0 && |q| < limit(key)
    ensures MemoryRun(limit, expiration, OnlyQueue(key, q), Burst(key, duration, n) + rest)
         == [true] + MemoryRun(limit, expiration, OnlyQueue(key, q + [0]), Burst(key, duration, n - 1) + rest)
  {
    var events := Burst(key, duration, n) + rest;
    assert events[0] == Request(key, duration, 0);
    assert events[1..] == Burst(key, duration, n - 1) + rest;
    assert [] + [0] == [0];
    assert Offer(QueueOf(OnlyQueue(key, q), key), limit(key), duration, Seconds(0)) == (true, q + [0]);
    assert OnlyQueue(key, q)[key := q + [0]] == OnlyQueue(key, q + [0]);
  }

  lemma {:induction false} BurstThen(limit: Limits, expiration: int, key: string, duration: int, n: nat, q: seq<int>,
                                     rest: seq<Event>)
    requires |q| + n <= limit(key)
    ensures MemoryRun(limit, expiration, OnlyQueue(key, q), Burst(key, duration, n) + rest)
         == Repeat(true, n) + MemoryRun(limit, expiration, OnlyQueue(key, q + Repeat(0, n)), rest)
    decreases n
  {
    hide MemoryRun, OnlyQueue;
    if n == 0 {
      assert Burst(key, duration, n) + rest == rest && q + Repeat(0, n) == q;
    } else {
      BurstStep(limit, expiration, key, duration, n, q, rest);
      BurstThen(limit, expiration, key, duration, n - 1, q + [0], rest);
      assert (q + [0]) + Repeat(0, n - 1) == q + Repeat(0, n);
    }
  }

  lemma {:induction false} BurstTimely(key: string, duration: int, n: nat, rest: seq<Event>)
    requires Timely(0, rest)
    ensures Timely(0, Burst(key, duration, n) + rest)
    ensures WithoutSweeps(Burst(key, duration, n) + rest) == Burst(key, duration, n) + WithoutSweeps(rest)
    decreases n
  {
    var events := Burst(key, duration, n) + rest;
    if n == 0 {
      assert events == rest && Burst(key, duration, n) + WithoutSweeps(rest) == WithoutSweeps(rest);
    } else {
      assert events[0] == Request(key, duration, 0);
      assert events[1..] == Burst(key, duration, n - 1) + rest;
      BurstTimely(key, duration, n - 1, rest);
    }
  }

  lemma LateSweepRemoved(key: string, duration: int, expiration: nat)
    ensures WithoutSweeps(LateSweep(key, duration, expiration)) == [LateSweep(key, duration, expiration)[1]]
  {
    var tail := LateSweep(key, duration, expiration);
    var last := [tail[1]];
    assert tail[1..] == last;
    assert WithoutSweeps(last) == last + WithoutSweeps(last[1..]);
  }

  // Onto a full queue: with the sweep the next request passes, without it it does not.
  lemma LateRuns(limit: Limits, expiration: nat, duration: int, key: string)
    requires limit(key) >= 1 && duration > expiration + 1
    ensures var full, tail := [] + Repeat(0, limit(key)), LateSweep(key, duration, expiration);
            && MemoryRun(limit, expiration, map[key := full], tail) == [true]
            && MemoryRun(limit, expiration, map[key := full], [tail[1]]) == [false]
  {
    var full, tail := [] + Repeat(0, limit(key)), LateSweep(key, duration, expiration);
    var late := expiration + 1;
    assert Seconds(1000 * late) == late;
    assert map[key := full][key][|full| - 1] == 0;
    var empty: Store := map[];
    assert Swept(map[key := full], expiration, late) == empty;
    assert tail[1..] == [tail[1]] && [tail[1]][1..] == [];
    assert MemoryRun(limit, expiration, empty, [tail[1]]) == [true];
  }

  lemma LateSweepShows(limit: Limits, expiration: nat, duration: int, key: string)
    requires limit(key) >= 1 && duration > expiration + 1
    ensures !SweepsNeverShow(limit, expiration, duration)
  {
    var n := limit(key);
    var tail := LateSweep(key, duration, expiration);
    var events := Burst(key, duration, n) + tail;
    LateSweepRemoved(key, duration, expiration);
    BurstTimely(key, duration, n, tail);
    assert UniformRun(duration, events);
    BurstThen(limit, expiration, key, duration, n, [], tail);
    BurstThen(limit, expiration, key, duration, n, [], [tail[1]]);
    LateRuns(limit, expiration, duration, key);
    var swept, plain := MemoryRun(limit, expiration, map[], events), MemoryRun(limit, expiration, map[], WithoutSweeps(events));
    assert swept[n] != plain[n];
  }

  // The windows for which no sweep can ever be observed.
  lemma SweepsNeverShowIff(limit: Limits, expiration: nat, duration: int)
    requires exists key :: limit(key) >= 1
    ensures SweepsNeverShow(limit, expiration, duration) <==> duration <= expiration + 1
  {
    if duration <= expiration + 1 {
      forall events | UniformRun(duration, events)
        ensures MemoryRun(limit, expiration, map[], events) == MemoryRun(limit, expiration, map[], WithoutSweeps(events))
      {
        SweepsInvisible(limit, expiration, events, 0);
      }
    } else {
      var key :| limit(key) >= 1;
      LateSweepShows(limit, expiration, duration, key);
    }
  }

  // ----- Window bound -----

  function CountIn(s: seq<int>, low: int, high: int): nat {
    if s == [] then 0
    else CountIn(s[..|s| - 1], low, high) + if low <= s[|s| - 1] < high then 1 else 0
  }

  lemma {:induction false} CountAfter(s: seq<int>, k: nat, low: int, high: int)
    requires k <= |s| && forall i :: 0 <= i < k ==> s[i] < low
    ensures CountIn(s, low, high) <= |s| - k
    decreases |s|
  {
    if s != [] {
      CountAfter(s[..|s| - 1], if k == |s| then k - 1 else k, low, high);
    }
  }

  // m steps in the log are at least d apart.
  ghost predicate Spaced(s: seq<int>, m: nat, d: int) {
    forall i, j :: 0 <= i && i + m <= j < |s| ==> s[j] - s[i] >= d
  }

  lemma {:induction false} SpacedCount(s: seq<int>, m: nat, d: int, t: int)
    requires Spaced(s, m, d)
    ensures CountIn(s, t, t + d) <= m
    decreases |s|
  {
    if s != [] {
      var last := |s| - 1;
      if t <= s[last] < t + d && |s| >= m {
        CountAfter(s, |s| - m, t, t + d);
      } else {
        assert Spaced(s[..last], m, d);
        SpacedCount(s[..last], m, d, t);
        CountAtMostLength(s, t, t + d);
      }
    }
  }

  lemma CountAtMostLength(s: seq<int>, low: int, high: int)
    ensures CountIn(s, low, high) <= |s|
  {
  }

  // A meter reading of at least duration is a gap of at least gap on the scale.
  ghost predicate Gauges(meter: Meter, scale: int -> int, duration: int, gap: int) {
    && (forall x: int, y: int :: x <= y ==> scale(x) <= scale(y))
    && (forall x: int, y: int :: x <= y && meter(y, x) >= duration ==> scale(y) - scale(x) >= gap)
  }

  function Scaled(scale: int -> int, s: seq<int>): seq<int> {
    seq(|s|, i requires 0 <= i < |s| => scale(s[i]))
  }

  ghost predicate KeyUses(duration: int, key: string, events: seq<Event>) {
    forall e :: e in events && e.Request? && e.key == key ==> e.duration == duration
  }

  lemma AdmittedStaysSpaced(meter: Meter, scale: int -> int, gap: int, entries: seq<int>, max: nat, duration: int,
                            clock: int)
    requires Gauges(meter, scale, duration, gap) && max >= 1
    requires SortedUpTo(entries, clock) && Spaced(Scaled(scale, entries), max, gap)
    requires Admits(meter, entries, max, duration, clock)
    ensures SortedUpTo(entries + [clock], clock)
    ensures Spaced(Scaled(scale, entries + [clock]), max, gap)
  {
    var longer := Scaled(scale, entries + [clock]);
    forall i, j | 0 <= i && i + max <= j < |longer| ensures longer[j] - longer[i] >= gap {
      if j == |entries| {
        var k := |entries| - max;
        assert scale(entries[i]) <= scale(entries[k]) by {
          assert entries[i] <= entries[k];
        }
      } else {
        assert longer[j] == Scaled(scale, entries)[j] && longer[i] == Scaled(scale, entries)[i];
      }
    }
  }

  // The log of a key is in order and spaced.
  ghost predicate InStep(scale: int -> int, gap: int, limit: Limits, log: Log, clock: int, key: string) {
    && SortedUpTo(Entries(log, key), clock)
    && Spaced(Scaled(scale, Entries(log, key)), Effective(limit(key)), gap)
  }

  lemma LoggedInStep(meter: Meter, scale: int -> int, gap: int, limit: Limits, log: Log, clock: int, e: Event,
                     key: string, duration: int)
    requires Gauges(meter, scale, duration, gap) && InStep(scale, gap, limit, log, clock, key)
    requires e.Request? && clock <= e.clock && (e.key == key ==> e.duration == duration)
    ensures InStep(scale, gap, limit, Logged(meter, limit, log, e), e.clock, key)
  {
    var m := Effective(limit(key));
    if e.key == key && Admits(meter, Entries(log, key), m, duration, e.clock) {
      AdmittedStaysSpaced(meter, scale, gap, Entries(log, key), m, duration, e.clock);
    }
  }

  lemma AcceptedStep(meter: Meter, limit: Limits, log: Log, events: seq<Event>, key: string)
    requires events != [] && events[0].Request?
    ensures Entries(log, key) + AcceptedTimes(events, LogRun(meter, limit, log, events), key)
         == Entries(Logged(meter, limit, log, events[0]), key)
            + AcceptedTimes(events[1..], LogRun(meter, limit, Logged(meter, limit, log, events[0]), events[1..]), key)
  {
    hide Admits, LogRun, AcceptedTimes, Logged, Entries, Effective;
    var e := events[0];
    var ok := Admits(meter, Entries(log, e.key), Effective(limit(e.key)), e.duration, e.clock);
    var later := LogRun(meter, limit, Logged(meter, limit, log, e), events[1..]);
    LogRunRequest(meter, limit, log, events);
    AcceptedTimesRequest(events, ok, later, key);
    LoggedEntries(meter, limit, log, e, key);
    assert Entries(log, key) + (Taken(e, ok, key) + AcceptedTimes(events[1..], later, key))
        == (Entries(log, key) + Taken(e, ok, key)) + AcceptedTimes(events[1..], later, key);
  }

  function Taken(e: Event, ok: bool, key: string): seq<int>
    requires e.Request?
  {
    if e.key == key && ok then [e.clock] else []
  }

  lemma LogRunRequest(meter: Meter, limit: Limits, log: Log, events: seq<Event>)
    requires events != [] && events[0].Request?
    ensures LogRun(meter, limit, log, events)
         == [Admits(meter, Entries(log, events[0].key), Effective(limit(events[0].key)), events[0].duration, events[0].clock)]
            + LogRun(meter, limit, Logged(meter, limit, log, events[0]), events[1..])
  {
    hide Admits, Logged, Entries, Effective;
  }

  lemma AcceptedTimesRequest(events: seq<Event>, ok: bool, later: seq<bool>, key: string)
    requires events != [] && events[0].Request?
    ensures AcceptedTimes(events, [ok] + later, key) == Taken(events[0], ok, key) + AcceptedTimes(events[1..], later, key)
  {
    assert ([ok] + later)[1..] == later;
  }

  lemma LoggedEntries(meter: Meter, limit: Limits, log: Log, e: Event, key: string)
    requires e.Request?
    ensures var ok := Admits(meter, Entries(log, e.key), Effective(limit(e.key)), e.duration, e.clock);
            Entries(Logged(meter, limit, log, e), key) == Entries(log, key) + Taken(e, ok, key)
  {
    hide Admits, Effective;
  }

  // Along any run of the log, the accepted requests of a key stay spaced.
  lemma {:induction false} LogStaysSpaced(meter: Meter, scale: int -> int, gap: int, limit: Limits, log: Log,
                                          clock: int, events: seq<Event>, key: string, duration: int)
    requires Gauges(meter, scale, duration, gap) && InStep(scale, gap, limit, log, clock, key)
    requires Timely(clock, events) && KeyUses(duration, key, events)
    ensures Spaced(Scaled(scale, Entries(log, key) + AcceptedTimes(events, LogRun(meter, limit, log, events), key)),
                   Effective(limit(key)), gap)
    decreases |events|
  {
    if events == [] {
      assert Entries(log, key) + [] == Entries(log, key);
    } else {
      var e := events[0];
      if e.Sweep? {
        LogStaysSpaced(meter, scale, gap, limit, log, e.clock, events[1..], key, duration);
      } else {
        hide Gauges, InStep, Spaced, Scaled, LogRun, AcceptedTimes;
        LoggedInStep(meter, scale, gap, limit, log, clock, e, key, duration);
        LogStaysSpaced(meter, scale, gap, limit, Logged(meter, limit, log, e), e.clock, events[1..], key, duration);
        AcceptedStep(meter, limit, log, events, key);
      }
    }
  }

  lemma LogWindow(meter: Meter, scale: int -> int, gap: int, limit: Limits, events: seq<Event>, start: int,
                  key: string, duration: int, t: int)
    requires Gauges(meter, scale, duration, gap)
    requires Timely(start, events) && KeyUses(duration, key, events)
    ensures CountIn(Scaled(scale, AcceptedTimes(events, LogRun(meter, limit, map[], events), key)), t, t + gap)
            <= Effective(limit(key))
  {
    var times := AcceptedTimes(events, LogRun(meter, limit, map[], events), key);
    assert [] + times == times;
    LogStaysSpaced(meter, scale, gap, limit, map[], start, events, key, duration);
    SpacedCount(Scaled(scale, times), Effective(limit(key)), gap, t);
  }

  // Sweeps included, no half-open interval of duration whole Unix seconds holds more
  // accepted requests of a key than its limit.
  lemma MemoryWindowBound(limit: Limits, expiration: int, events: seq<Event>, start: int, key: string, duration: int,
                          t: int)
    requires Timely(start, events) && DurationsAtMost(expiration + 1, events) && KeyUses(duration, key, events)
    ensures CountIn(Scaled(Seconds, AcceptedTimes(events, MemoryRun(limit, expiration, map[], events), key)), t, t + duration)
            <= Effective(limit(key))
  {
    MemoryRefinesLog(limit, expiration, map[], map[], start, events);
    LogWindow(SecondsApart, Seconds, duration, limit, events, start, key, duration, t);
  }

  // In real time the same holds for intervals shorter by almost a second.
  lemma MemoryRealTimeBound(limit: Limits, expiration: int, events: seq<Event>, start: int, key: string, duration: int,
                            t: int)
    requires Timely(start, events) && DurationsAtMost(expiration + 1, events) && KeyUses(duration, key, events)
    ensures CountIn(AcceptedTimes(events, MemoryRun(limit, expiration, map[], events), key),
                    t, t + 1000 * (duration - 1) + 1)
            <= Effective(limit(key))
  {
    hide LogRun, MemoryRun, AcceptedTimes, CountIn, StoreRefines;
    FreshStoreRefines(limit, expiration, start);
    MemoryRefinesLog(limit, expiration, map[], map[], start, events);
    LogWindow(SecondsApart, Milliseconds, 1000 * (duration - 1) + 1, limit, events, start, key, duration, t);
    ScaledMilliseconds(AcceptedTimes(events, LogRun(SecondsApart, limit, map[], events), key));
  }

  lemma ScaledMilliseconds(s: seq<int>)
    ensures Scaled(Milliseconds, s) == s
  {
    assert forall i :: 0 <= i < |s| ==> Scaled(Milliseconds, s)[i] == Milliseconds(s[i]);
  }

  // No longer interval will do: two requests one millisecond further apart than that both
  // pass under a limit of one.
  lemma RealTimeBoundIsSharp(expiration: int, key: string, duration: nat)
    requires duration >= 1
    ensures var events := [Request(key, duration, 999), Request(key, duration, 1000 * duration)];
            && Timely(0, events) && KeyUses(duration, key, events)
            && MemoryRun(_ => 1, expiration, map[], events) == [true, true]
            && CountIn(AcceptedTimes(events, [true, true], key), 999, 999 + 1000 * (duration - 1) + 2) == 2
  {
    var limit: Limits := _ => 1;
    var first, second := Request(key, duration, 999), Request(key, duration, 1000 * duration);
    assert [first, second][1..] == [second] && [second][1..] == [] && [true, true][1..] == [true] && [true][1..] == [];
    var empty: Store := map[];
    var store: Store := map[key := [0]];
    assert empty[key := [0]] == store && [] + [0] == [0];
    assert Offer(QueueOf(empty, key), 1, duration, Seconds(999)) == (true, [0]);
    assert Offer(QueueOf(store, key), 1, duration, Seconds(1000 * duration)).0;
    assert MemoryRun(limit, expiration, store, [second]) == [true];
    var times := AcceptedTimes([first, second], [true, true], key);
    assert AcceptedTimes([second], [true], key) == [1000 * duration];
    assert times == [999] + [1000 * duration];
    assert times[..1] == [999] && [999][..0] == [];
    assert CountIn([999], 999, 999 + 1000 * (duration - 1) + 2) == 1;
  }

  // ----- The Redis limiter refines the sliding log -----

  // A list holds the latest entries, newest first; whatever a short one lacks is older
  // than the key's lifetime.
  ghost predicate Tail(items: seq<int>, entries: seq<int>, max: nat, ttl: int, clock: int) {
    && |items| <= |entries|
    && SortedUpTo(entries, clock)
    && (forall i :: 0 <= i < |items| ==> items[i] == entries[|entries| - 1 - i])
    && (|items| < max ==> forall i :: 0 <= i < |entries| - |items| ==> clock - entries[i] >= ttl)
  }

  // What is stored under the key, should it still live.
  ghost predicate Kept(keys: Keyspace, key: string, entries: seq<int>, max: nat, ttl: int, clock: int) {
    && SortedUpTo(entries, clock)
    && (key !in keys ==> Tail([], entries, max, ttl, clock))
    && (key in keys ==>
          && keys[key].deadline.Some?
          && Tail(keys[key].items, entries, max, ttl, clock)
          && forall i :: 0 <= i < |entries| ==> entries[i] + ttl <= keys[key].deadline.value)
  }

  // Whole requests never let it grow beyond the limit.
  ghost predicate Lists(items: seq<int>, entries: seq<int>, max: nat, ttl: int, clock: int) {
    |items| <= max && Tail(items, entries, max, ttl, clock)
  }

  ghost predicate Stored(keys: Keyspace, key: string, entries: seq<int>, max: nat, ttl: int, clock: int) {
    Kept(keys, key, entries, max, ttl, clock) && (key in keys ==> |keys[key].items| <= max)
  }

  ghost predicate KeysRefine(limit: Limits, ttl: int, keys: Keyspace, log: Log, clock: int) {
    forall key :: Stored(keys, key, Entries(log, key), limit(key), ttl, clock)
  }

  lemma LiveLists(keys: Keyspace, key: string, entries: seq<int>, max: nat, ttl: int, clock: int, later: int)
    requires Stored(keys, key, entries, max, ttl, clock) && clock <= later
    ensures Stored(keys, key, entries, max, ttl, later)
    ensures Lists(Live(keys, key, later), entries, max, ttl, later)
  {
  }

  lemma PushRefines(items: seq<int>, entries: seq<int>, max: nat, ttl: int, duration: int, clock: int)
    requires Lists(items, entries, max, ttl, clock) && max >= 1 && 1000 * duration <= ttl
    ensures var (decision, items') := Push(items, max, duration, clock);
            && decision == (if Admits(Elapsed, entries, max, duration, clock) then Allow else TooMany)
            && items'.Some?
            && Lists(items'.value, if decision == Allow then entries + [clock] else entries, max, ttl, clock)
  {
    if |entries| >= max {
      var k := |entries| - max;
      if |items| == max {
        assert items[max - 1] == entries[k];
      } else {
        assert clock - entries[k] >= ttl;
      }
    }
  }

  lemma KeysRefineLater(limit: Limits, ttl: int, keys: Keyspace, log: Log, clock: int, later: int)
    requires KeysRefine(limit, ttl, keys, log, clock) && clock <= later
    ensures KeysRefine(limit, ttl, keys, log, later)
  {
  }

  function Touched(limit: Limits, ttl: int, keys: Keyspace, e: Event): Keyspace
    requires e.Request?
  {
    var items := Push(Live(keys, e.key, e.clock), limit(e.key), e.duration, e.clock).1;
    if items.None? then keys else keys[e.key := RedisList(items.value, Some(e.clock + ttl))]
  }

  lemma RedisStepRefines(limit: Limits, ttl: int, keys: Keyspace, log: Log, e: Event)
    requires e.Request? && KeysRefine(limit, ttl, keys, log, e.clock)
    requires limit(e.key) >= 1 && 1000 * e.duration <= ttl
    ensures Push(Live(keys, e.key, e.clock), limit(e.key), e.duration, e.clock).0
         == if Admits(Elapsed, Entries(log, e.key), limit(e.key), e.duration, e.clock) then Allow else TooMany
    ensures KeysRefine(limit, ttl, Touched(limit, ttl, keys, e), Logged(Elapsed, limit, log, e), e.clock)
  {
    var entries, items := Entries(log, e.key), Live(keys, e.key, e.clock);
    LiveLists(keys, e.key, entries, limit(e.key), ttl, e.clock, e.clock);
    PushRefines(items, entries, limit(e.key), ttl, e.duration, e.clock);
    var keys', log' := Touched(limit, ttl, keys, e), Logged(Elapsed, limit, log, e);
    hide Push, Live, Lists, Admits;
    forall key ensures Stored(keys', key, Entries(log', key), limit(key), ttl, e.clock) {
      assert Stored(keys, key, Entries(log, key), limit(key), ttl, e.clock);
      if key == e.key {
        assert Lists(keys'[key].items, Entries(log', key), limit(key), ttl, e.clock);
        assert SortedUpTo(Entries(log', key), e.clock);
      }
    }
  }

  // Every answer of the Redis limiter is the sliding log's, measured in milliseconds.
  lemma {:induction false} RedisRefinesLog(limit: Limits, ttl: int, keys: Keyspace, log: Log, clock: int,
                                           events: seq<Event>)
    requires KeysRefine(limit, ttl, keys, log, clock) && forall key :: limit(key) >= 1
    requires Timely(clock, events) && forall e :: e in events && e.Request? ==> 1000 * e.duration <= ttl
    ensures RedisRun(limit, ttl, keys, events) == Answers(LogRun(Elapsed, limit, log, events))
    decreases |events|
  {
    if events != [] {
      hide KeysRefine, Push, Live, Admits;
      var e := events[0];
      KeysRefineLater(limit, ttl, keys, log, clock, e.clock);
      if e.Sweep? {
        RedisRefinesLog(limit, ttl, keys, log, e.clock, events[1..]);
      } else {
        RedisStepRefines(limit, ttl, keys, log, e);
        RedisRefinesLog(limit, ttl, Touched(limit, ttl, keys, e), Logged(Elapsed, limit, log, e), e.clock, events[1..]);
      }
    }
  }

  lemma FreshKeysRefine(limit: Limits, ttl: int, clock: int)
    ensures KeysRefine(limit, ttl, map[], map[], clock)
  {
  }

  function Answers(decisions: seq<bool>): (answers: seq<Decision>)
    ensures |answers| == |decisions|
    ensures forall i :: 0 <= i < |decisions| ==> answers[i] == if decisions[i] then Allow else TooMany
  {
    if decisions == [] then [] else [if decisions[0] then Allow else TooMany] + Answers(decisions[1..])
  }

  function Allowed(answers: seq<Decision>): seq<bool> {
    seq(|answers|, i requires 0 <= i < |answers| => answers[i] == Allow)
  }

  lemma AllowedAnswers(decisions: seq<bool>)
    ensures Allowed(Answers(decisions)) == decisions
  {
  }

  // On Redis the bound holds to the millisecond.
  lemma RedisWindowBound(limit: Limits, ttl: int, events: seq<Event>, start: int, key: string, duration: int, t: int)
    requires forall key :: limit(key) >= 1
    requires Timely(start, events) && (forall e :: e in events && e.Request? ==> 1000 * e.duration <= ttl)
    requires KeyUses(duration, key, events)
    ensures CountIn(AcceptedTimes(events, Allowed(RedisRun(limit, ttl, map[], events)), key), t, t + 1000 * duration)
            <= limit(key)
  {
    hide LogRun, RedisRun, AcceptedTimes, CountIn, Answers, Allowed, KeysRefine;
    FreshKeysRefine(limit, ttl, start);
    RedisRefinesLog(limit, ttl, map[], map[], start, events);
    var accepted := LogRun(Elapsed, limit, map[], events);
    AllowedAnswers(accepted);
    LogWindow(Elapsed, Milliseconds, 1000 * duration, limit, events, start, key, duration, t);
    ScaledMilliseconds(AcceptedTimes(events, accepted, key));
  }

  function Milliseconds(clock: int): int { clock }

  // ----- When the two limiters agree -----

  // The oldest counted request is exactly duration seconds back by the second hand,
  // but less by the millisecond.
  ghost predicate Straddles(entries: seq<int>, max: nat, duration: int, clock: int)
    requires max >= 1
  {
    && |entries| >= max
    && SecondsApart(clock, entries[|entries| - max]) == duration
    && clock % 1000 < entries[|entries| - max] % 1000
  }

  lemma MetersDiffer(clock: int, before: int, duration: int)
    requires before <= clock
    ensures Elapsed(clock, before) >= duration ==> SecondsApart(clock, before) >= duration
    ensures (SecondsApart(clock, before) >= duration && Elapsed(clock, before) < duration)
       <==> (SecondsApart(clock, before) == duration && clock % 1000 < before % 1000)
  {
  }

  // No request of the run meets the straddling moment.
  ghost predicate NeverStraddles(limit: Limits, log: Log, events: seq<Event>)
    decreases |events|
  {
    events == [] ||
    if events[0].Sweep? then NeverStraddles(limit, log, events[1..])
    else
      var e := events[0];
      && !Straddles(Entries(log, e.key), Effective(limit(e.key)), e.duration, e.clock)
      && NeverStraddles(limit, Logged(SecondsApart, limit, log, e), events[1..])
  }

  ghost predicate LogSorted(log: Log, clock: int) {
    forall key :: SortedUpTo(Entries(log, key), clock)
  }

  lemma LoggedSorted(meter: Meter, limit: Limits, log: Log, clock: int, e: Event)
    requires LogSorted(log, clock) && e.Request? && clock <= e.clock
    ensures LogSorted(Logged(meter, limit, log, e), e.clock)
  {
    var log' := Logged(meter, limit, log, e);
    forall key ensures SortedUpTo(Entries(log', key), e.clock) {
      assert SortedUpTo(Entries(log, key), clock);
    }
  }

  lemma {:induction false} MetersAgreeIff(limit: Limits, log: Log, clock: int, events: seq<Event>)
    requires LogSorted(log, clock) && Timely(clock, events)
    ensures LogRun(SecondsApart, limit, log, events) == LogRun(Elapsed, limit, log, events) <==>
              NeverStraddles(limit, log, events)
    decreases |events|
  {
    if events != [] {
      var e := events[0];
      if e.Sweep? {
        assert LogSorted(log, e.clock) by {
          forall key ensures SortedUpTo(Entries(log, key), e.clock) {
            assert SortedUpTo(Entries(log, key), clock);
          }
        }
        MetersAgreeIff(limit, log, e.clock, events[1..]);
      } else {
        var entries, m := Entries(log, e.key), Effective(limit(e.key));
        if |entries| >= m {
          assert SortedUpTo(entries, clock);
          MetersDiffer(e.clock, entries[|entries| - m], e.duration);
        }
        var a, b := LogRun(SecondsApart, limit, log, events), LogRun(Elapsed, limit, log, events);
        if Straddles(entries, m, e.duration, e.clock) {
          assert a[0] != b[0];
        } else {
          var log' := Logged(SecondsApart, limit, log, e);
          assert log' == Logged(Elapsed, limit, log, e);
          LoggedSorted(SecondsApart, limit, log, clock, e);
          MetersAgreeIff(limit, log', e.clock, events[1..]);
          assert a[1..] == LogRun(SecondsApart, limit, log', events[1..]);
          assert b[1..] == LogRun(Elapsed, limit, log', events[1..]);
        }
      }
    }
  }

  lemma AnswersInjective(a: seq<bool>, b: seq<bool>)
    ensures Answers(a) == Answers(b) <==> a == b
  {
  }

  lemma AgreeUnderLimitsIff(limit: Limits, expiration: int, events: seq<Event>, start: int)
    requires forall key :: limit(key) >= 1
    requires Timely(start, events) && DurationsAtMost(expiration, events)
    ensures RedisRun(limit, 1000 * expiration, map[], events) == Answers(MemoryRun(limit, expiration, map[], events)) <==>
              NeverStraddles(limit, map[], events)
  {
    FreshStoreRefines(limit, expiration, start);
    FreshKeysRefine(limit, 1000 * expiration, start);
    MemoryRefinesLog(limit, expiration, map[], map[], start, events);
    RedisRefinesLog(limit, 1000 * expiration, map[], map[], start, events);
    MetersAgreeIff(limit, map[], start, events);
    AnswersInjective(LogRun(SecondsApart, limit, map[], events), LogRun(Elapsed, limit, map[], events));
  }

  predicate NoneZero(limit: Limits, events: seq<Event>) {
    forall e :: e in events && e.Request? ==> limit(e.key) >= 1
  }

  // On Redis a request under a limit of zero ends in a server error, now and later.
  lemma {:induction false} ZeroLimitFails(limit: Limits, ttl: int, keys: Keyspace, events: seq<Event>)
    requires !NoneZero(limit, events) && forall key :: key in keys ==> limit(key) >= 1
    ensures ServerError in RedisRun(limit, ttl, keys, events)
    decreases |events|
  {
    var e, rest := events[0], events[1..];
    if NoneZero(limit, rest) {
      assert e.Request? && limit(e.key) == 0;
      assert RedisRun(limit, ttl, keys, events)[0] == ServerError;
    } else if e.Sweep? {
      ZeroLimitFails(limit, ttl, keys, rest);
    } else {
      ZeroLimitFails(limit, ttl, Touched(limit, ttl, keys, e), rest);
      assert RedisRun(limit, ttl, keys, events)[1..] == RedisRun(limit, ttl, Touched(limit, ttl, keys, e), rest);
    }
  }

  // Only the limits of the keys that occur matter.
  lemma {:induction false} SameLimits(a: Limits, b: Limits, ttl: int, keys: Keyspace, expiration: int, store: Store,
                                      log: Log, events: seq<Event>)
    requires NoEmptyQueue(store) && forall e :: e in events && e.Request? ==> a(e.key) == b(e.key)
    ensures RedisRun(a, ttl, keys, events) == RedisRun(b, ttl, keys, events)
    ensures MemoryRun(a, expiration, store, events) == MemoryRun(b, expiration, store, events)
    ensures NeverStraddles(a, log, events) <==> NeverStraddles(b, log, events)
    decreases |events|
  {
    if events != [] {
      hide Push, Live, Admits, Straddles, Offer, Swept;
      var e := events[0];
      assert forall f :: f in events[1..] ==> f in events;
      if e.Sweep? {
        SweptNoEmptyQueue(store, expiration, Seconds(e.clock));
        SameLimits(a, b, ttl, keys, expiration, Swept(store, expiration, Seconds(e.clock)), log, events[1..]);
      } else {
        var queue := Offer(QueueOf(store, e.key), a(e.key), e.duration, Seconds(e.clock)).1;
        SameLimits(a, b, ttl, Touched(a, ttl, keys, e), expiration, store[e.key := queue],
                   Logged(SecondsApart, a, log, e), events[1..]);
      }
    }
  }

  lemma SweptNoEmptyQueue(store: Store, expiration: int, now: int)
    requires NoEmptyQueue(store)
    ensures NoEmptyQueue(Swept(store, expiration, now))
  {
  }

  // Over a shared clock the two limiters answer alike on a whole run exactly when no
  // request has a limit of zero and none straddles.
  lemma LimitersAgreeIff(limit: Limits, expiration: int, events: seq<Event>, start: int)
    requires Timely(start, events) && DurationsAtMost(expiration, events)
    ensures RedisRun(limit, 1000 * expiration, map[], events) == Answers(MemoryRun(limit, expiration, map[], events)) <==>
              NoneZero(limit, events) && NeverStraddles(limit, map[], events)
  {
    hide RedisRun, MemoryRun, NeverStraddles, Timely;
    if NoneZero(limit, events) {
      var positive: Limits := (key: string) => Effective(limit(key));
      forall key ensures positive(key) >= 1 {
        assert positive(key) == Effective(limit(key));
      }
      SameLimits(limit, positive, 1000 * expiration, map[], expiration, map[], map[], events);
      AgreeUnderLimitsIff(positive, expiration, events, start);
    } else {
      ZeroLimitFails(limit, 1000 * expiration, map[], events);
      var answers := Answers(MemoryRun(limit, expiration, map[], events));
      assert forall i :: 0 <= i < |answers| ==> answers[i] != ServerError;
    }
  }

  ghost predicate SamePhase(log: Log, phase: int) {
    forall key, i :: 0 <= i < |Entries(log, key)| ==> Entries(log, key)[i] % 1000 == phase
  }

  lemma {:induction false} WholeSecondsNeverStraddle(limit: Limits, log: Log, events: seq<Event>, phase: int)
    requires SamePhase(log, phase) && forall e :: e in events ==> e.clock % 1000 == phase
    ensures NeverStraddles(limit, log, events)
    decreases |events|
  {
    if events != [] {
      var e := events[0];
      assert forall f :: f in events[1..] ==> f in events;
      if e.Sweep? {
        WholeSecondsNeverStraddle(limit, log, events[1..], phase);
      } else {
        var log' := Logged(SecondsApart, limit, log, e);
        forall key, i | 0 <= i < |Entries(log', key)| ensures Entries(log', key)[i] % 1000 == phase {
          if i < |Entries(log, key)| {
            assert Entries(log', key)[i] == Entries(log, key)[i];
          }
        }
        WholeSecondsNeverStraddle(limit, log', events[1..], phase);
      }
    }
  }

  // On a clock that ticks whole seconds they agree on every run.
  lemma LimitersAgreeOnWholeSeconds(limit: Limits, expiration: int, events: seq<Event>, start: int)
    requires forall key :: limit(key) >= 1
    requires Timely(start, events) && DurationsAtMost(expiration, events)
    requires forall e :: e in events ==> e.clock % 1000 == start % 1000
    ensures RedisRun(limit, 1000 * expiration, map[], events) == Answers(MemoryRun(limit, expiration, map[], events))
  {
    WholeSecondsNeverStraddle(limit, map[], events, start % 1000);
    LimitersAgreeIff(limit, expiration, events, start);
  }

  // One request at 0.999 s and one at 60 s: the second is let through only in memory.
  lemma LimitersCanDisagree()
    ensures var events := [Request("CT", 60, 999), Request("CT", 60, 60000)];
            && MemoryRun(_ => 1, 1200, map[], events) == [true, true]
            && RedisRun(_ => 1, 1200000, map[], events) == [Allow, TooMany]
  {
  }

  // With a limit of zero memory lets the first request of a key through, Redis fails on it.
  lemma ZeroLimitDiffers(limit: Limits, expiration: int, key: string, duration: int, clock: int)
    requires limit(key) == 0
    ensures MemoryRun(limit, expiration, map[], [Request(key, duration, clock)]) == [true]
    ensures RedisRun(limit, 1000 * expiration, map[], [Request(key, duration, clock)]) == [ServerError]
  {
    assert [Request(key, duration, clock)][1..] == [];
    assert RedisRun(limit, 1000 * expiration, map[], []) == [];
  }
}
