/** Schedules of the Redis limiter that let through as many requests as the bound admits. */
module RedisOvershoot {
  import opened Outcomes
  import opened Sequences
  import opened RateLimit
  import opened RateLimitProof
  import opened RedisCommands
  import opened RedisFlight

  // ----- Schedules, piece by piece -----

  function AfterAll(limit: Limits, ttl: int, s: Server, commands: seq<Command>): Server
    decreases |commands|
  {
    if commands == [] then s else AfterAll(limit, ttl, After(limit, ttl, s, commands[0]), commands[1..])
  }

  lemma {:induction false} Pieces(limit: Limits, ttl: int, s: Server, a: seq<Command>, b: seq<Command>,
                                  key: string, k: nat)
    ensures var s' := AfterAll(limit, ttl, s, a);
            && AfterAll(limit, ttl, s, a + b) == AfterAll(limit, ttl, s', b)
            && Answered(limit, ttl, s, a + b, key) == Answered(limit, ttl, s, a, key) + Answered(limit, ttl, s', b, key)
            && Recorded(limit, ttl, s, a + b, key) == Recorded(limit, ttl, s, a, key) + Recorded(limit, ttl, s', b, key)
            && (FewInFlight(k, limit, ttl, s, a + b, key) <==>
                  FewInFlight(k, limit, ttl, s, a, key) && FewInFlight(k, limit, ttl, s', b, key))
    decreases |a|
  {
    hide After, AnswersNow, RecordsNow, InFlight;
    if a == [] {
      assert a + b == b;
    } else {
      Pieces(limit, ttl, After(limit, ttl, s, a[0]), a[1..], b, key, k);
      assert (a + b)[1..] == a[1..] + b;
    }
  }

  // These requests are let through, with never more than k in flight.
  ghost predicate Passes(k: nat, limit: Limits, ttl: int, s: Server, commands: seq<Command>, key: string,
                         recorded: seq<int>) {
    Recorded(limit, ttl, s, commands, key) == recorded && FewInFlight(k, limit, ttl, s, commands, key)
  }

  ghost predicate Runs(k: nat, limit: Limits, ttl: int, s: Server, commands: seq<Command>, key: string, s': Server,
                       recorded: seq<int>) {
    AfterAll(limit, ttl, s, commands) == s' && Passes(k, limit, ttl, s, commands, key, recorded)
  }

  lemma Chain(k: nat, limit: Limits, ttl: int, s: Server, a: seq<Command>, s1: Server, p: seq<int>, b: seq<Command>,
              s2: Server, q: seq<int>, key: string)
    requires Runs(k, limit, ttl, s, a, key, s1, p) && Runs(k, limit, ttl, s1, b, key, s2, q)
    ensures Runs(k, limit, ttl, s, a + b, key, s2, p + q)
  {
    hide AfterAll, Recorded, FewInFlight;
    Pieces(limit, ttl, s, a, b, key, k);
  }

  lemma ChainEnd(k: nat, limit: Limits, ttl: int, s: Server, a: seq<Command>, s1: Server, p: seq<int>,
                 b: seq<Command>,
                 q: seq<int>, key: string)
    requires Runs(k, limit, ttl, s, a, key, s1, p) && Passes(k, limit, ttl, s1, b, key, q)
    ensures Passes(k, limit, ttl, s, a + b, key, p + q)
  {
    hide AfterAll, Recorded, FewInFlight;
    Pieces(limit, ttl, s, a, b, key, k);
  }

  ghost predicate AllAt(clock: int, commands: seq<Command>) {
    forall c :: c in commands ==> c.clock == clock
  }

  lemma {:induction false} PieceInTime(from: int, clock: int, a: seq<Command>, b: seq<Command>)
    requires AllAt(clock, a) && from <= clock && InTime(clock, b)
    ensures InTime(from, a + b)
    decreases |a|
  {
    if a == [] {
      assert a + b == b;
      EarlierInTime(from, clock, b);
    } else {
      assert a[0] in a;
      PieceInTime(clock, clock, a[1..], b);
      assert (a + b)[1..] == a[1..] + b;
    }
  }

  lemma EarlierInTime(from: int, clock: int, b: seq<Command>)
    requires from <= clock && InTime(clock, b)
    ensures InTime(from, b)
  {
  }

  // Sessions 0 to n - 1 look, or finish with the last session first.
  function Looks(key: string, duration: int, n: nat, clock: int): (commands: seq<Command>)
    ensures forall c :: c in commands ==> c.clock == clock && c.Look? && c.duration == duration
  {
    if n == 0 then [] else Looks(key, duration, n - 1, clock) + [Look(key, n - 1, duration, clock)]
  }

  function Finishes(key: string, n: nat, clock: int): (commands: seq<Command>)
    ensures forall c :: c in commands ==> c.clock == clock && c.Finish?
  {
    if n == 0 then [] else [Finish(key, n - 1, clock)] + Finishes(key, n - 1, clock)
  }

  // One session after another looks and finishes.
  function Pairs(key: string, session: nat, duration: int, n: nat, clock: int): (commands: seq<Command>)
    ensures forall c :: c in commands ==> c.clock == clock && (c.Look? ==> c.duration == duration)
  {
    if n == 0 then []
    else [Look(key, session, duration, clock), Finish(key, session, clock)] + Pairs(key, session, duration, n - 1, clock)
  }

  // ----- Who waits -----

  function Waiting(key: string, n: nat, full: bool): (waiting: map<(string, nat), Write>)
    ensures forall w :: w in waiting <==> w.0 == key && w.1 < n
    ensures forall w :: w in waiting ==> waiting[w] == Record(full)
  {
    if n == 0 then map[] else Waiting(key, n - 1, full)[(key, n - 1) := Record(full)]
  }

  lemma {:induction false} WaitingFly(keys: Keyspace, key: string, n: nat, full: bool)
    ensures InFlight(Server(keys, Waiting(key, n, full)), key) == n
    ensures |Flying(Server(keys, Waiting(key, n, full)), key, full)| == n
    ensures Flying(Server(keys, Waiting(key, n, full)), key, !full) == {}
  {
    if n > 0 {
      WaitingFly(keys, key, n - 1, full);
      var s := Server(keys, Waiting(key, n - 1, full));
      LookFlies(s, key, n - 1, Record(full), full);
      assert Server(keys, Waiting(key, n, full)) == s.(waiting := s.waiting[(key, n - 1) := Record(full)]);
    }
  }

  lemma OneCommand(limit: Limits, ttl: int, s: Server, c: Command, key: string, k: nat)
    ensures AfterAll(limit, ttl, s, [c]) == After(limit, ttl, s, c)
    ensures Answered(limit, ttl, s, [c], key) == AnswersNow(limit, s, c, key)
    ensures Recorded(limit, ttl, s, [c], key) == RecordsNow(s, c, key)
    ensures FewInFlight(k, limit, ttl, s, [c], key) <==>
              InFlight(s, key) <= k && InFlight(After(limit, ttl, s, c), key) <= k
  {
    hide After, AnswersNow, RecordsNow, InFlight;
    assert [c][1..] == [];
  }

  lemma NextLook(limit: Limits, ttl: int, keys: Keyspace, key: string, duration: int, n: nat, clock: int)
    requires Answer(limit, keys, key, duration, clock) == Allow
    ensures var full, look := |Live(keys, key, clock)| >= limit(key), Look(key, n, duration, clock);
            var s := Server(keys, Waiting(key, n, full));
            && After(limit, ttl, s, look) == Server(keys, Waiting(key, n + 1, full))
            && AnswersNow(limit, s, look, key) == [Allow] && RecordsNow(s, look, key) == []
  {
    hide Answer, Live;
  }

  // Looks between which nobody writes are all answered alike.
  ghost predicate LooksPass(limit: Limits, ttl: int, keys: Keyspace, key: string, duration: int, n: nat,
                            clock: int, k: nat) {
    var s, looks := Server(keys, map[]), Looks(key, duration, n, clock);
    && AfterAll(limit, ttl, s, looks) == Server(keys, Waiting(key, n, |Live(keys, key, clock)| >= limit(key)))
    && Answered(limit, ttl, s, looks, key) == Repeat(Allow, n)
    && Recorded(limit, ttl, s, looks, key) == []
    && FewInFlight(k, limit, ttl, s, looks, key)
  }

  lemma NoLooksPass(limit: Limits, ttl: int, keys: Keyspace, key: string, duration: int, clock: int, k: nat)
    ensures LooksPass(limit, ttl, keys, key, duration, 0, clock, k)
  {
    hide Live;
    WaitingFly(keys, key, 0, |Live(keys, key, clock)| >= limit(key));
    assert Waiting(key, 0, |Live(keys, key, clock)| >= limit(key)) == map[];
  }

  lemma AnotherLookPasses(limit: Limits, ttl: int, keys: Keyspace, key: string, duration: int, n: nat, clock: int,
                          k: nat)
    requires Answer(limit, keys, key, duration, clock) == Allow && n < k
    requires LooksPass(limit, ttl, keys, key, duration, n, clock, k)
    ensures LooksPass(limit, ttl, keys, key, duration, n + 1, clock, k)
  {
    hide Answer, Live, InFlight, After, AnswersNow, RecordsNow, AfterAll, Answered, Recorded, FewInFlight, Waiting, Flying;
    var s, full := Server(keys, map[]), |Live(keys, key, clock)| >= limit(key);
    var looks, last := Looks(key, duration, n, clock), Look(key, n, duration, clock);
    assert Looks(key, duration, n + 1, clock) == looks + [last];
    hide Looks;
    Pieces(limit, ttl, s, looks, [last], key, k);
    WaitingFly(keys, key, n, full);
    WaitingFly(keys, key, n + 1, full);
    NextLook(limit, ttl, keys, key, duration, n, clock);
    OneCommand(limit, ttl, Server(keys, Waiting(key, n, full)), last, key, k);
    assert Repeat(Allow, n) + [Allow] == Repeat(Allow, n + 1);
  }

  lemma {:induction false} LooksRun(limit: Limits, ttl: int, keys: Keyspace, key: string, duration: int, n: nat,
                                    clock: int,
                                    k: nat)
    requires Answer(limit, keys, key, duration, clock) == Allow && n <= k
    ensures LooksPass(limit, ttl, keys, key, duration, n, clock, k)
  {
    hide Answer, LooksPass;
    if n == 0 {
      NoLooksPass(limit, ttl, keys, key, duration, clock, k);
    } else {
      LooksRun(limit, ttl, keys, key, duration, n - 1, clock, k);
      AnotherLookPasses(limit, ttl, keys, key, duration, n - 1, clock, k);
    }
  }

  lemma NextFinish(limit: Limits, ttl: int, keys: Keyspace, key: string, n: nat, clock: int, full: bool)
    ensures var s, finish := Server(keys, Waiting(key, n + 1, full)), Finish(key, n, clock);
            && After(limit, ttl, s, finish)
               == Server(Written(limit, ttl, keys, key, Record(full), clock), Waiting(key, n, full))
            && AnswersNow(limit, s, finish, key) == [] && RecordsNow(s, finish, key) == [clock]
  {
    hide Written;
    assert Waiting(key, n + 1, full) - {(key, n)} == Waiting(key, n, full);
  }

  // What n finished sessions of one kind leave of the lists.
  function WrittenAll(limit: Limits, ttl: int, keys: Keyspace, key: string, n: nat, clock: int, full: bool): Keyspace
    decreases n
  {
    if n == 0 then keys else WrittenAll(limit, ttl, Written(limit, ttl, keys, key, Record(full), clock), key, n - 1, clock, full)
  }

  lemma {:induction false} FinishesRun(limit: Limits, ttl: int, keys: Keyspace, key: string, n: nat, clock: int,
                                       full: bool,
                                       k: nat)
    requires n <= k
    ensures var s, finishes := Server(keys, Waiting(key, n, full)), Finishes(key, n, clock);
            && AfterAll(limit, ttl, s, finishes) == Server(WrittenAll(limit, ttl, keys, key, n, clock, full), map[])
            && Answered(limit, ttl, s, finishes, key) == []
            && Recorded(limit, ttl, s, finishes, key) == Repeat(clock, n)
            && FewInFlight(k, limit, ttl, s, finishes, key)
    decreases n
  {
    hide Written, InFlight, After, AnswersNow, RecordsNow, Waiting, Flying;
    WaitingFly(keys, key, n, full);
    if n == 0 {
      assert Waiting(key, 0, full) == map[];
    } else {
      NextFinish(limit, ttl, keys, key, n - 1, clock, full);
      FinishesRun(limit, ttl, Written(limit, ttl, keys, key, Record(full), clock), key, n - 1, clock, full, k);
      assert Finishes(key, n, clock)[1..] == Finishes(key, n - 1, clock);
    }
  }

  // On an empty list any number of requests that look before one of them has written is
  // let through at once, whatever the limit.
  lemma ConcurrentRequestsOvershoot(limit: Limits, ttl: int, keys: Keyspace, key: string, duration: int,
                                    clock: int, n: nat)
    requires limit(key) >= 1 && Live(keys, key, clock) == []
    ensures var s, commands := Server(keys, map[]), Looks(key, duration, n, clock) + Finishes(key, n, clock);
            && Answered(limit, ttl, s, commands, key) == Repeat(Allow, n)
            && Recorded(limit, ttl, s, commands, key) == Repeat(clock, n)
  {
    LooksRun(limit, ttl, keys, key, duration, n, clock, n);
    FinishesRun(limit, ttl, keys, key, n, clock, false, n);
    Pieces(limit, ttl, Server(keys, map[]), Looks(key, duration, n, clock), Finishes(key, n, clock), key, n);
    hide Answered, Recorded;
    assert Repeat(Allow, n) + [] == Repeat(Allow, n) && [] + Repeat(clock, n) == Repeat(clock, n);
  }

  // ----- The bound is sharp -----

  function One(key: string, items: seq<int>, deadline: int): Keyspace {
    map[key := RedisList(items, Some(deadline))]
  }

  function NextDeadline(deadline: int, n: nat, clock: int, ttl: int): int {
    if n == 0 then deadline else clock + ttl
  }

  lemma {:induction false} PushedAll(limit: Limits, ttl: int, key: string, items: seq<int>, deadline: int, n: nat,
                                     clock: int)
    requires clock < deadline && ttl > 0
    ensures WrittenAll(limit, ttl, One(key, items, deadline), key, n, clock, false)
         == One(key, Repeat(clock, n) + items, NextDeadline(deadline, n, clock, ttl))
    decreases n
  {
    if n == 0 {
      assert Repeat(clock, 0) + items == items;
    } else {
      PushedAll(limit, ttl, key, [clock] + items, clock + ttl, n - 1, clock);
      assert Written(limit, ttl, One(key, items, deadline), key, Record(false), clock) == One(key, [clock] + items, clock + ttl);
      RepeatShifts(clock, n, items);
    }
  }

  lemma {:induction false} RepeatShifts(x: int, n: nat, items: seq<int>)
    requires n >= 1
    ensures Repeat(x, n - 1) + ([x] + items) == Repeat(x, n) + items
  {
  }

  lemma OnePair(limit: Limits, ttl: int, key: string, items: seq<int>, deadline: int, j: nat, duration: int,
                clock: int, k: nat)
    requires |items| < limit(key) && clock < deadline && ttl > 0 && j < k
    ensures Runs(k, limit, ttl, Server(One(key, items, deadline), Waiting(key, j, false)),
                 [Look(key, j, duration, clock), Finish(key, j, clock)], key,
                 Server(One(key, [clock] + items, clock + ttl), Waiting(key, j, false)), [clock])
  {
    var keys, after := One(key, items, deadline), One(key, [clock] + items, clock + ttl);
    assert Live(keys, key, clock) == items;
    assert Written(limit, ttl, keys, key, Record(false), clock) == after;
    hide Written, Live, One, Runs, Waiting;
    var s1 := Server(keys, Waiting(key, j + 1, false));
    LookRuns(limit, ttl, keys, key, duration, j, clock, k);
    FinishRuns(limit, ttl, keys, key, j, clock, false, k);
    Chain(k, limit, ttl, Server(keys, Waiting(key, j, false)), [Look(key, j, duration, clock)], s1, [],
          [Finish(key, j, clock)], Server(after, Waiting(key, j, false)), [clock], key);
    assert [Look(key, j, duration, clock)] + [Finish(key, j, clock)] == [Look(key, j, duration, clock), Finish(key, j, clock)];
    assert [] + [clock] == [clock];
  }

  lemma LookRuns(limit: Limits, ttl: int, keys: Keyspace, key: string, duration: int, j: nat, clock: int, k: nat)
    requires |Live(keys, key, clock)| < limit(key) && j < k
    ensures Runs(k, limit, ttl, Server(keys, Waiting(key, j, false)), [Look(key, j, duration, clock)], key,
                 Server(keys, Waiting(key, j + 1, false)), [])
  {
    NextLook(limit, ttl, keys, key, duration, j, clock);
    hide Live, InFlight, Flying, Waiting, After, RecordsNow, AnswersNow, AfterAll, Recorded, FewInFlight;
    OneCommand(limit, ttl, Server(keys, Waiting(key, j, false)), Look(key, j, duration, clock), key, k);
    WaitingFly(keys, key, j, false);
    WaitingFly(keys, key, j + 1, false);
  }

  lemma FinishRuns(limit: Limits, ttl: int, keys: Keyspace, key: string, j: nat, clock: int, full: bool, k: nat)
    requires j < k
    ensures Runs(k, limit, ttl, Server(keys, Waiting(key, j + 1, full)), [Finish(key, j, clock)], key,
                 Server(Written(limit, ttl, keys, key, Record(full), clock), Waiting(key, j, full)), [clock])
  {
    hide Written, InFlight, Flying, Waiting, After, RecordsNow, AnswersNow, AfterAll, Recorded, FewInFlight;
    NextFinish(limit, ttl, keys, key, j, clock, full);
    OneCommand(limit, ttl, Server(keys, Waiting(key, j + 1, full)), Finish(key, j, clock), key, k);
    WaitingFly(keys, key, j + 1, full);
    WaitingFly(Written(limit, ttl, keys, key, Record(full), clock), key, j, full);
  }

  lemma NothingRuns(limit: Limits, ttl: int, keys: Keyspace, key: string, j: nat, k: nat)
    requires j <= k
    ensures Runs(k, limit, ttl, Server(keys, Waiting(key, j, false)), [], key, Server(keys, Waiting(key, j, false)), [])
  {
    hide InFlight;
    WaitingFly(keys, key, j, false);
  }

  lemma {:induction false} PairsRun(limit: Limits, ttl: int, key: string, items: seq<int>, deadline: int, j: nat,
                                    duration: int,
                                    n: nat, clock: int, k: nat)
    requires |items| + n <= limit(key) && clock < deadline && ttl > 0 && j < k
    ensures Runs(k, limit, ttl, Server(One(key, items, deadline), Waiting(key, j, false)), Pairs(key, j, duration, n, clock), key,
                 Server(One(key, Repeat(clock, n) + items, NextDeadline(deadline, n, clock, ttl)), Waiting(key, j, false)),
                 Repeat(clock, n))
    decreases n
  {
    hide Waiting, One, Runs;
    if n == 0 {
      NothingRuns(limit, ttl, One(key, items, deadline), key, j, k);
      assert Repeat(clock, 0) + items == items;
    } else {
      OnePair(limit, ttl, key, items, deadline, j, duration, clock, k);
      PairsRun(limit, ttl, key, [clock] + items, clock + ttl, j, duration, n - 1, clock, k);
      var more := Repeat(clock, n - 1) + ([clock] + items);
      Chain(k, limit, ttl, Server(One(key, items, deadline), Waiting(key, j, false)),
            [Look(key, j, duration, clock), Finish(key, j, clock)],
            Server(One(key, [clock] + items, clock + ttl), Waiting(key, j, false)), [clock],
            Pairs(key, j, duration, n - 1, clock),
            Server(One(key, more, NextDeadline(clock + ttl, n - 1, clock, ttl)), Waiting(key, j, false)),
            Repeat(clock, n - 1), key);
      RepeatShifts(clock, n, items);
    }
  }

  // k requests look at once and one writes; the limit is filled up one by one just before
  // that entry grows old; the others write; and when it is old, k more look at once.
  function Overshoot(key: string, duration: nat, max: nat, k: nat): seq<Command>
    requires max >= 1 && k >= 1
  {
    Looks(key, duration, k, 0) + ([Finish(key, k - 1, 0)] + Filled(key, duration, max, k))
  }

  function Filled(key: string, duration: nat, max: nat, k: nat): seq<Command>
    requires max >= 1 && k >= 1
  {
    Pairs(key, k - 1, duration, max - 1, 1000 * duration - 1)
    + (Finishes(key, k - 1, 1000 * duration - 1) + Burst(key, duration, k))
  }

  function Burst(key: string, duration: nat, k: nat): seq<Command> {
    Looks(key, duration, k, 1000 * duration) + Finishes(key, k, 1000 * duration)
  }

  lemma LooksRuns(limit: Limits, ttl: int, keys: Keyspace, key: string, duration: int, n: nat, clock: int,
                  full: bool, k: nat)
    requires Answer(limit, keys, key, duration, clock) == Allow && full == (|Live(keys, key, clock)| >= limit(key)) && n <= k
    ensures Runs(k, limit, ttl, Server(keys, map[]), Looks(key, duration, n, clock), key,
                 Server(keys, Waiting(key, n, full)), [])
  {
    hide Answer, Live, AfterAll, Recorded, FewInFlight, Waiting, Looks;
    LooksRun(limit, ttl, keys, key, duration, n, clock, k);
  }

  lemma FinishesRuns(limit: Limits, ttl: int, keys: Keyspace, key: string, n: nat, clock: int, full: bool, k: nat)
    requires n <= k
    ensures Runs(k, limit, ttl, Server(keys, Waiting(key, n, full)), Finishes(key, n, clock), key,
                 Server(WrittenAll(limit, ttl, keys, key, n, clock, full), map[]), Repeat(clock, n))
  {
    hide AfterAll, Recorded, FewInFlight, Waiting, Finishes, WrittenAll;
    FinishesRun(limit, ttl, keys, key, n, clock, full, k);
  }

  lemma FinishesPass(limit: Limits, ttl: int, keys: Keyspace, key: string, n: nat, clock: int, full: bool, k: nat)
    requires n <= k
    ensures Passes(k, limit, ttl, Server(keys, Waiting(key, n, full)), Finishes(key, n, clock), key, Repeat(clock, n))
  {
    hide Passes, Waiting, WrittenAll, Repeat, Finishes;
    FinishesRuns(limit, ttl, keys, key, n, clock, full, k);
  }

  lemma BurstPasses(limit: Limits, ttl: int, key: string, items: seq<int>, deadline: int, duration: nat, k: nat)
    requires |items| >= limit(key) >= 1 && items[|items| - 1] == 0 && 1000 * duration < deadline
    ensures Passes(k, limit, ttl, Server(One(key, items, deadline), map[]), Burst(key, duration, k), key,
                   Repeat(1000 * duration, k))
  {
    var keys, w := One(key, items, deadline), 1000 * duration;
    assert Live(keys, key, w) == items && Answer(limit, keys, key, duration, w) == Allow;
    hide Answer, Live, One, Runs, Passes, Waiting, Looks, Finishes;
    LooksRuns(limit, ttl, keys, key, duration, k, w, true, k);
    FinishesPass(limit, ttl, keys, key, k, w, true, k);
    ChainEnd(k, limit, ttl, Server(keys, map[]), Looks(key, duration, k, w), Server(keys, Waiting(key, k, true)), [],
             Finishes(key, k, w), Repeat(w, k), key);
    assert [] + Repeat(w, k) == Repeat(w, k);
  }

  // The others write: more than the limit, with the old entry still at the end.
  lemma RestPasses(limit: Limits, ttl: int, key: string, duration: nat, k: nat, full: seq<int>, deadline: int)
    requires k >= 1 && duration >= 1 && 1000 * duration < deadline && 1000 * duration < ttl
    requires |full| == limit(key) >= 1 && full[|full| - 1] == 0
    ensures var w := 1000 * duration;
            Passes(k, limit, ttl, Server(One(key, full, deadline), Waiting(key, k - 1, false)),
                   Finishes(key, k - 1, w - 1) + Burst(key, duration, k), key, Repeat(w - 1, k - 1) + Repeat(w, k))
  {
    hide One, Runs, Passes, Waiting, WrittenAll, Finishes, Burst;
    var w := 1000 * duration;
    var more, e := Repeat(w - 1, k - 1) + full, NextDeadline(deadline, k - 1, w - 1, ttl);
    PushedAll(limit, ttl, key, full, deadline, k - 1, w - 1);
    FinishesRuns(limit, ttl, One(key, full, deadline), key, k - 1, w - 1, false, k);
    BurstPasses(limit, ttl, key, more, e, duration, k);
    ChainEnd(k, limit, ttl, Server(One(key, full, deadline), Waiting(key, k - 1, false)), Finishes(key, k - 1, w - 1),
             Server(One(key, more, e), map[]), Repeat(w - 1, k - 1), Burst(key, duration, k), Repeat(w, k), key);
  }

  lemma FilledPasses(limit: Limits, ttl: int, key: string, duration: nat, k: nat)
    requires limit(key) >= 1 && k >= 1 && duration >= 1 && 1000 * duration < ttl
    ensures var w := 1000 * duration;
            Passes(k, limit, ttl, Server(One(key, [0], ttl), Waiting(key, k - 1, false)),
                   Filled(key, duration, limit(key), k), key,
                   Repeat(w - 1, limit(key) - 1) + (Repeat(w - 1, k - 1) + Repeat(w, k)))
  {
    hide One, Runs, Passes, Waiting, Finishes, Burst, Pairs;
    var w, max := 1000 * duration, limit(key);
    var full, d := Repeat(w - 1, max - 1) + [0], NextDeadline(ttl, max - 1, w - 1, ttl);
    PairsRun(limit, ttl, key, [0], ttl, k - 1, duration, max - 1, w - 1, k);
    RestPasses(limit, ttl, key, duration, k, full, d);
    ChainEnd(k, limit, ttl, Server(One(key, [0], ttl), Waiting(key, k - 1, false)),
             Pairs(key, k - 1, duration, max - 1, w - 1), Server(One(key, full, d), Waiting(key, k - 1, false)),
             Repeat(w - 1, max - 1), Finishes(key, k - 1, w - 1) + Burst(key, duration, k),
             Repeat(w - 1, k - 1) + Repeat(w, k), key);
  }

  lemma OntoNothing(limit: Limits, ttl: int, key: string, duration: nat)
    requires limit(key) >= 1
    ensures Live(map[], key, 0) == [] && Answer(limit, map[], key, duration, 0) == Allow
    ensures Written(limit, ttl, map[], key, Record(false), 0) == One(key, [0], ttl)
  {
    assert [0] + [] == [0];
  }

  // The first of k requests that looked at once writes at once.
  lemma FirstWrites(limit: Limits, ttl: int, key: string, duration: nat, k: nat)
    requires limit(key) >= 1 && k >= 1
    ensures Runs(k, limit, ttl, Server(map[], map[]), Looks(key, duration, k, 0), key,
                 Server(map[], Waiting(key, k, false)), [])
    ensures Runs(k, limit, ttl, Server(map[], Waiting(key, k, false)), [Finish(key, k - 1, 0)], key,
                 Server(One(key, [0], ttl), Waiting(key, k - 1, false)), [0])
  {
    hide Written, Live, Answer, One, Runs, Waiting, Looks;
    OntoNothing(limit, ttl, key, duration);
    LooksRuns(limit, ttl, map[], key, duration, k, 0, false, k);
    FinishRuns(limit, ttl, map[], key, k - 1, 0, false, k);
  }

  lemma OvershootPasses(limit: Limits, ttl: int, key: string, duration: nat, k: nat)
    requires limit(key) >= 1 && k >= 1 && duration >= 1 && 1000 * duration < ttl
    ensures var w := 1000 * duration;
            Passes(k, limit, ttl, Server(map[], map[]), Overshoot(key, duration, limit(key), k), key,
                   [0] + (Repeat(w - 1, limit(key) - 1) + (Repeat(w - 1, k - 1) + Repeat(w, k))))
  {
    hide One, Runs, Passes, Waiting, Filled, Looks;
    var w := 1000 * duration;
    FirstWrites(limit, ttl, key, duration, k);
    FilledPasses(limit, ttl, key, duration, k);
    var rest := Repeat(w - 1, limit(key) - 1) + (Repeat(w - 1, k - 1) + Repeat(w, k));
    hide Repeat;
    ChainEnd(k, limit, ttl, Server(map[], Waiting(key, k, false)), [Finish(key, k - 1, 0)],
             Server(One(key, [0], ttl), Waiting(key, k - 1, false)), [0], Filled(key, duration, limit(key), k), rest, key);
    ChainEnd(k, limit, ttl, Server(map[], map[]), Looks(key, duration, k, 0), Server(map[], Waiting(key, k, false)), [],
             [Finish(key, k - 1, 0)] + Filled(key, duration, limit(key), k), [0] + rest, key);
    assert [] + ([0] + rest) == [0] + rest;
  }

  lemma {:induction false} CountOfBoth(a: seq<int>, b: seq<int>, t: int, u: int)
    ensures CountIn(a + b, t, u) == CountIn(a, t, u) + CountIn(b, t, u)
    decreases |b|
  {
    if b == [] {
      assert a + b == a;
    } else {
      CountOfBoth(a, b[..|b| - 1], t, u);
      assert (a + b)[..|a + b| - 1] == a + b[..|b| - 1];
    }
  }

  lemma {:induction false} CountOfRepeat(x: int, n: nat, t: int, u: int)
    requires t <= x < u
    ensures CountIn(Repeat(x, n), t, u) == n
  {
    if n > 0 {
      CountOfRepeat(x, n - 1, t, u);
      assert Repeat(x, n)[..n - 1] == Repeat(x, n - 1);
    }
  }

  lemma BurstInTime(key: string, duration: nat, k: nat)
    ensures InTime(1000 * duration, Burst(key, duration, k))
  {
    hide InTime, Looks, Finishes;
    var w := 1000 * duration;
    NothingInTime(w);
    PieceInTime(w, w, Finishes(key, k, w), []);
    assert Finishes(key, k, w) + [] == Finishes(key, k, w);
    PieceInTime(w, w, Looks(key, duration, k, w), Finishes(key, k, w));
  }

  lemma FilledInTime(key: string, duration: nat, max: nat, k: nat)
    requires max >= 1 && k >= 1
    ensures InTime(1000 * duration - 1, Filled(key, duration, max, k))
  {
    hide InTime, Finishes, Pairs, Burst;
    var w := 1000 * duration;
    BurstInTime(key, duration, k);
    EarlierInTime(w - 1, w, Burst(key, duration, k));
    PieceInTime(w - 1, w - 1, Finishes(key, k - 1, w - 1), Burst(key, duration, k));
    PieceInTime(w - 1, w - 1, Pairs(key, k - 1, duration, max - 1, w - 1), Finishes(key, k - 1, w - 1) + Burst(key, duration, k));
  }

  lemma OvershootInTime(key: string, duration: nat, max: nat, k: nat)
    requires max >= 1 && k >= 1 && duration >= 1
    ensures InTime(0, Overshoot(key, duration, max, k))
  {
    hide InTime, Looks, Filled;
    FilledInTime(key, duration, max, k);
    EarlierInTime(0, 1000 * duration - 1, Filled(key, duration, max, k));
    PieceInTime(0, 0, [Finish(key, k - 1, 0)], Filled(key, duration, max, k));
    PieceInTime(0, 0, Looks(key, duration, k, 0), [Finish(key, k - 1, 0)] + Filled(key, duration, max, k));
  }

  lemma NothingInTime(from: int)
    ensures InTime(from, [])
  {
  }

  lemma OvershootLooks(key: string, duration: nat, max: nat, k: nat)
    requires max >= 1 && k >= 1
    ensures LooksUse(duration, key, Overshoot(key, duration, max, k))
  {
    hide Looks, Finishes, Pairs;
  }

  /** For every limit, number in flight and duration some schedule reaches the bound. */
  lemma FlightBoundIsSharp(limit: Limits, ttl: int, key: string, duration: nat, k: nat)
    requires limit(key) >= 1 && k >= 1 && duration >= 1 && 1000 * duration < ttl
    ensures var s, commands, w := Server(map[], map[]), Overshoot(key, duration, limit(key), k), 1000 * duration;
            && InTime(0, commands) && LooksUse(duration, key, commands)
            && FewInFlight(k, limit, ttl, s, commands, key)
            && CountIn(Recorded(limit, ttl, s, commands, key), w - 1, w - 1 + w) == limit(key) + 2 * (k - 1)
  {
    hide Overshoot, Recorded, FewInFlight, InTime, CountIn, Repeat, LooksUse, AfterAll;
    var w, max := 1000 * duration, limit(key);
    OvershootInTime(key, duration, max, k);
    OvershootLooks(key, duration, max, k);
    OvershootPasses(limit, ttl, key, duration, k);
    var t, u := w - 1, w - 1 + w;
    CountOfRepeat(w - 1, max - 1, t, u);
    CountOfRepeat(w - 1, k - 1, t, u);
    CountOfRepeat(w, k, t, u);
    CountOfBoth(Repeat(w - 1, k - 1), Repeat(w, k), t, u);
    CountOfBoth(Repeat(w - 1, max - 1), Repeat(w - 1, k - 1) + Repeat(w, k), t, u);
    CountOfBoth([0], Repeat(w - 1, max - 1) + (Repeat(w - 1, k - 1) + Repeat(w, k)), t, u);
    assert CountIn([0], t, u) == 0 by { CountSnoc([], 0, t, u); assert [] + [0] == [0]; CountNone(t, u); }
  }

  lemma CountNone(t: int, u: int)
    ensures CountIn([], t, u) == 0
  {
  }
}
