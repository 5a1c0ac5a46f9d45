/**
 How far requests in flight together can overshoot the Redis limiter's window, and that
 they can.
 */
module RedisFlight {
  import opened RateLimit
  import opened RateLimitProof
  import opened RedisCommands

  // ----- Requests in flight -----

  // Allowed requests of a key that have not written yet; full: those that will trim.
  function Flying(s: Server, key: string, full: bool): set<(string, nat)> {
    set w | w in s.waiting && w.0 == key && s.waiting[w] == Record(full)
  }

  function InFlight(s: Server, key: string): nat {
    |Flying(s, key, false)| + |Flying(s, key, true)|
  }

  ghost predicate FewInFlight(k: nat, limit: Limits, ttl: int, s: Server, commands: seq<Command>, key: string)
    decreases |commands|
  {
    && InFlight(s, key) <= k
    && (commands != [] ==> FewInFlight(k, limit, ttl, After(limit, ttl, s, commands[0]), commands[1..], key))
  }

  ghost predicate InTime(from: int, commands: seq<Command>)
    decreases |commands|
  {
    commands != [] ==> from <= commands[0].clock && InTime(commands[0].clock, commands[1..])
  }

  ghost predicate LooksUse(duration: int, key: string, commands: seq<Command>) {
    forall c :: c in commands && c.Look? && c.key == key ==> c.duration == duration
  }

  // ----- The list is the newest part of what was recorded -----

  lemma KeptLater(keys: Keyspace, key: string, entries: seq<int>, max: nat, ttl: int, clock: int, later: int)
    requires Kept(keys, key, entries, max, ttl, clock) && clock <= later
    ensures Kept(keys, key, entries, max, ttl, later)
    ensures Tail(Live(keys, key, later), entries, max, ttl, later)
    ensures Live(keys, key, later) == Live(keys, key, clock) || Live(keys, key, later) == []
  {
  }

  // ----- One window -----

  lemma CountBehind(items: seq<int>, entries: seq<int>, max: nat, ttl: int, clock: int, t: int, u: int)
    requires Tail(items, entries, max, ttl, clock) && items != [] && items[|items| - 1] < t
    ensures CountIn(entries, t, u) <= |items| - 1
  {
    CountAfter(entries, |entries| - |items| + 1, t, u);
  }

  // What is missing from a short list is older than any window.
  lemma CountShort(items: seq<int>, entries: seq<int>, max: nat, ttl: int, clock: int, t: int, u: int)
    requires Tail(items, entries, max, ttl, clock) && |items| < max && clock < u <= t + ttl
    ensures CountIn(entries, t, u) <= |items|
  {
    CountAfter(entries, |entries| - |items|, t, u);
  }

  lemma CountSnoc(entries: seq<int>, x: int, t: int, u: int)
    ensures CountIn(entries + [x], t, u) == CountIn(entries, t, u) + if t <= x < u then 1 else 0
  {
    assert (entries + [x])[..|entries|] == entries;
  }

  // Few entries in the window, or an older one still at the end of the list, or a full
  // list within the window, which lets nobody pass.
  ghost predicate Phase(items: seq<int>, entries: seq<int>, max: nat, k: nat, pushing: nat, trimming: nat, t: int,
                        u: int) {
    var c := CountIn(entries, t, u);
    || c < max
    || (items != [] && items[|items| - 1] < t)
    || (items != [] && |items| >= max && c + pushing + trimming <= max + 2 * (k - 1))
  }

  // pushing and trimming: how many of the two kinds of writes are in flight.
  ghost predicate Within(items: seq<int>, entries: seq<int>, max: nat, k: nat, pushing: nat, trimming: nat, ttl: int,
                         clock: int, t: int, u: int) {
    && Tail(items, entries, max, ttl, clock)
    && |items| + pushing <= max - 1 + k
    && Phase(items, entries, max, k, pushing, trimming, t, u)
  }

  lemma WithinBounds(items: seq<int>, entries: seq<int>, max: nat, k: nat, pushing: nat, trimming: nat, ttl: int,
                     clock: int, t: int, u: int)
    requires Within(items, entries, max, k, pushing, trimming, ttl, clock, t, u) && max >= 1 && k >= 1
    ensures CountIn(entries, t, u) <= max + 2 * (k - 1)
  {
    if items != [] && items[|items| - 1] < t {
      CountBehind(items, entries, max, ttl, clock, t, u);
    }
  }

  lemma WithinExpired(entries: seq<int>, max: nat, k: nat, pushing: nat, trimming: nat, ttl: int, clock: int,
                      t: int, u: int)
    requires Tail([], entries, max, ttl, clock) && max >= 1 && pushing <= k && clock < u <= t + ttl
    ensures Within([], entries, max, k, pushing, trimming, ttl, clock, t, u)
  {
    CountShort([], entries, max, ttl, clock, t, u);
  }

  // A look that is let pass.
  lemma WithinLook(items: seq<int>, entries: seq<int>, max: nat, k: nat, pushing: nat, trimming: nat, ttl: int,
                   clock: int,
                   t: int, duration: int)
    requires Within(items, entries, max, k, pushing, trimming, ttl, clock, t, t + 1000 * duration)
    requires max >= 1 && clock < t + 1000 * duration && Push(items, max, duration, clock).0 == Allow
    ensures |items| < max && pushing + 1 <= k ==>
              Within(items, entries, max, k, pushing + 1, trimming, ttl, clock, t, t + 1000 * duration)
    ensures |items| >= max ==> Within(items, entries, max, k, pushing, trimming + 1, ttl, clock, t, t + 1000 * duration)
  {
    if |items| < max && 1000 * duration <= ttl {
      CountShort(items, entries, max, ttl, clock, t, t + 1000 * duration);
    }
  }

  lemma WithinPush(items: seq<int>, entries: seq<int>, max: nat, k: nat, pushing: nat, trimming: nat, ttl: int,
                   clock: int,
                   t: int, u: int)
    requires Within(items, entries, max, k, pushing + 1, trimming, ttl, clock, t, u)
    requires max >= 1 && clock < u <= t + ttl && pushing + 1 + trimming <= k
    ensures Within([clock] + items, entries + [clock], max, k, pushing, trimming, ttl, clock, t, u)
  {
    hide Tail;
    CountSnoc(entries, clock, t, u);
    TailPush(items, entries, max, ttl, clock);
    var longer, more := [clock] + items, entries + [clock];
    if CountIn(more, t, u) >= max && longer[|longer| - 1] >= t {
      if |longer| < max {
        CountShort(longer, more, max, ttl, clock, t, u);
      }
    }
  }

  lemma TailPush(items: seq<int>, entries: seq<int>, max: nat, ttl: int, clock: int)
    requires Tail(items, entries, max, ttl, clock)
    ensures Tail([clock] + items, entries + [clock], max, ttl, clock)
  {
  }

  lemma TailTrim(items: seq<int>, entries: seq<int>, max: nat, ttl: int, clock: int)
    requires Tail(items, entries, max, ttl, clock) && max >= 1
    ensures Tail(Trim([clock] + items, max), entries + [clock], max, ttl, clock)
  {
  }

  lemma WithinTrim(items: seq<int>, entries: seq<int>, max: nat, k: nat, pushing: nat, trimming: nat, ttl: int,
                   clock: int,
                   t: int, u: int)
    requires Within(items, entries, max, k, pushing, trimming + 1, ttl, clock, t, u)
    requires max >= 1 && clock < u <= t + ttl && pushing + trimming + 1 <= k
    ensures Within(Trim([clock] + items, max), entries + [clock], max, k, pushing, trimming, ttl, clock, t, u)
  {
    hide Tail;
    CountSnoc(entries, clock, t, u);
    TailTrim(items, entries, max, ttl, clock);
    var trimmed, more := Trim([clock] + items, max), entries + [clock];
    if CountIn(more, t, u) >= max && trimmed[|trimmed| - 1] >= t {
      if |trimmed| < max {
        CountShort(trimmed, more, max, ttl, clock, t, u);
      }
      if items != [] && items[|items| - 1] < t {
        CountBehind(items, entries, max, ttl, clock, t, u);
      }
    }
  }

  // ----- One command -----

  // Where a run stands: the list, what was recorded, and, while the window is open, who
  // may still be let into it.
  ghost predicate Stands(limit: Limits, ttl: int, s: Server, entries: seq<int>, key: string, k: nat, clock: int,
                         t: int,
                         u: int) {
    && Kept(s.keys, key, entries, limit(key), ttl, clock)
    && CountIn(entries, t, u) <= limit(key) + 2 * (k - 1)
    && (clock < u ==> Within(Live(s.keys, key, clock), entries, limit(key), k,
                             |Flying(s, key, false)|, |Flying(s, key, true)|, ttl, clock, t, u))
  }

  lemma StandsLater(limit: Limits, ttl: int, s: Server, entries: seq<int>, key: string, k: nat, clock: int,
                    later: int,
                    t: int, u: int)
    requires Stands(limit, ttl, s, entries, key, k, clock, t, u) && clock <= later
    requires limit(key) >= 1 && InFlight(s, key) <= k && u <= t + ttl
    ensures Stands(limit, ttl, s, entries, key, k, later, t, u)
  {
    hide Phase, Flying;
    KeptLater(s.keys, key, entries, limit(key), ttl, clock, later);
    if later < u && Live(s.keys, key, later) == [] {
      WithinExpired(entries, limit(key), k, |Flying(s, key, false)|, |Flying(s, key, true)|, ttl, later, t, u);
    }
  }

  lemma SameFlying(s: Server, s': Server, key: string)
    requires SameOn(key, s, s')
    ensures forall full :: Flying(s, key, full) == Flying(s', key, full)
  {
    forall full ensures Flying(s, key, full) == Flying(s', key, full) {
      forall w ensures w in Flying(s, key, full) <==> w in Flying(s', key, full) {
        if w.0 == key {
          assert w == (key, w.1);
        }
      }
    }
  }

  lemma ElsewhereStands(limit: Limits, ttl: int, s: Server, entries: seq<int>, c: Command, key: string, k: nat,
                        t: int,
                        u: int)
    requires Stands(limit, ttl, s, entries, key, k, c.clock, t, u) && c.key != key
    ensures Stands(limit, ttl, After(limit, ttl, s, c), entries + RecordsNow(s, c, key), key, k, c.clock, t, u)
  {
    hide Within, Tail, After, CountIn, SortedUpTo, Flying;
    ElsewhereUnseen(limit, ttl, s, c, key);
    SameFlying(s, After(limit, ttl, s, c), key);
    assert entries + [] == entries;
  }

  // How a look and a write change who is in flight.
  lemma LookFlies(s: Server, key: string, session: nat, w: Write, full: bool)
    requires (key, session) !in s.waiting
    ensures var s' := s.(waiting := s.waiting[(key, session) := w]);
            |Flying(s', key, full)| == |Flying(s, key, full)| + if w == Record(full) then 1 else 0
  {
    var s' := s.(waiting := s.waiting[(key, session) := w]);
    if w == Record(full) {
      assert Flying(s', key, full) == Flying(s, key, full) + {(key, session)};
    } else {
      assert Flying(s', key, full) == Flying(s, key, full);
    }
  }

  lemma FinishLands(s: Server, keys: Keyspace, key: string, session: nat, full: bool)
    requires (key, session) in s.waiting
    ensures var s' := Server(keys, s.waiting - {(key, session)});
            |Flying(s, key, full)| == |Flying(s', key, full)| + if s.waiting[(key, session)] == Record(full) then 1 else 0
  {
    var s' := Server(keys, s.waiting - {(key, session)});
    if s.waiting[(key, session)] == Record(full) {
      assert Flying(s, key, full) == Flying(s', key, full) + {(key, session)};
    } else {
      assert Flying(s, key, full) == Flying(s', key, full);
    }
  }

  lemma LookStands(limit: Limits, ttl: int, s: Server, entries: seq<int>, c: Command, key: string, k: nat, t: int)
    requires c.Look? && c.key == key && limit(key) >= 1
    requires Stands(limit, ttl, s, entries, key, k, c.clock, t, t + 1000 * c.duration)
    requires InFlight(After(limit, ttl, s, c), key) <= k
    ensures Stands(limit, ttl, After(limit, ttl, s, c), entries, key, k, c.clock, t, t + 1000 * c.duration)
  {
    hide Within, Kept, Flying, CountIn, Push;
    var s' := After(limit, ttl, s, c);
    if (key, c.session) !in s.waiting && WriteOf(limit, s.keys, c).Some? {
      LookFlies(s, key, c.session, WriteOf(limit, s.keys, c).value, false);
      LookFlies(s, key, c.session, WriteOf(limit, s.keys, c).value, true);
      if Answer(limit, s.keys, key, c.duration, c.clock) == Allow && c.clock < t + 1000 * c.duration {
        WithinLook(Live(s.keys, key, c.clock), entries, limit(key), k, |Flying(s, key, false)|, |Flying(s, key, true)|, ttl,
                   c.clock, t, c.duration);
      }
    }
  }

  // The list a write leaves behind is live and still the newest part.
  lemma WrittenKept(limit: Limits, ttl: int, keys: Keyspace, entries: seq<int>, key: string, w: Write, clock: int)
    requires Kept(keys, key, entries, limit(key), ttl, clock) && limit(key) >= 1 && ttl > 0
    ensures var keys', items := Written(limit, ttl, keys, key, w, clock), Live(keys, key, clock);
            && Kept(keys', key, if w.Record? then entries + [clock] else entries, limit(key), ttl, clock)
            && Live(keys', key, clock) ==
                 match w
                 case Refuse => items
                 case Record(full) => if full then Trim([clock] + items, limit(key)) else [clock] + items
  {
    KeptLater(keys, key, entries, limit(key), ttl, clock, clock);
    TailPush(Live(keys, key, clock), entries, limit(key), ttl, clock);
    TailTrim(Live(keys, key, clock), entries, limit(key), ttl, clock);
    hide Tail, Trim;
  }

  lemma FinishStands(limit: Limits, ttl: int, s: Server, entries: seq<int>, c: Command, key: string, k: nat,
                     t: int, u: int)
    requires c.Finish? && c.key == key && limit(key) >= 1 && ttl > 0 && u <= t + ttl && k >= 1
    requires Stands(limit, ttl, s, entries, key, k, c.clock, t, u) && InFlight(s, key) <= k
    ensures Stands(limit, ttl, After(limit, ttl, s, c), entries + RecordsNow(s, c, key), key, k, c.clock, t, u)
  {
    hide Within, Kept, Flying, CountIn, Written, Live, Trim;
    var s' := After(limit, ttl, s, c);
    assert entries + [] == entries;
    if (key, c.session) in s.waiting {
      var w, items := s.waiting[(key, c.session)], Live(s.keys, key, c.clock);
      FinishLands(s, s'.keys, key, c.session, false);
      FinishLands(s, s'.keys, key, c.session, true);
      WrittenKept(limit, ttl, s.keys, entries, key, w, c.clock);
      var p, f := |Flying(s', key, false)|, |Flying(s', key, true)|;
      if w.Record? {
        CountSnoc(entries, c.clock, t, u);
        if c.clock < u {
          if w.full {
            WithinTrim(items, entries, limit(key), k, p, f, ttl, c.clock, t, u);
          } else {
            WithinPush(items, entries, limit(key), k, p, f, ttl, c.clock, t, u);
          }
          WithinBounds(Live(s'.keys, key, c.clock), entries + [c.clock], limit(key), k, p, f, ttl, c.clock, t, u);
        }
      }
    }
  }

  // ----- Any schedule -----

  lemma {:induction false} StandsThrough(limit: Limits, ttl: int, s: Server, entries: seq<int>,
                                         commands: seq<Command>,
                                         key: string, k: nat, clock: int, t: int, duration: int)
    requires Stands(limit, ttl, s, entries, key, k, clock, t, t + 1000 * duration)
    requires limit(key) >= 1 && ttl > 0 && 1000 * duration <= ttl && k >= 1
    requires InTime(clock, commands) && LooksUse(duration, key, commands)
    requires FewInFlight(k, limit, ttl, s, commands, key)
    ensures CountIn(entries + Recorded(limit, ttl, s, commands, key), t, t + 1000 * duration) <= limit(key) + 2 * (k - 1)
    decreases |commands|
  {
    hide CountIn, After, RecordsNow, InFlight;
    if commands == [] {
      assert entries + [] == entries;
    } else {
      var c, u := commands[0], t + 1000 * duration;
      StandsLater(limit, ttl, s, entries, key, k, clock, c.clock, t, u);
      hide Stands;
      var s' := After(limit, ttl, s, c);
      if c.key != key {
        ElsewhereStands(limit, ttl, s, entries, c, key, k, t, u);
      } else if c.Look? {
        LookStands(limit, ttl, s, entries, c, key, k, t);
        LooksRecordNothing(s, c, key);
        assert entries + [] == entries;
      } else {
        FinishStands(limit, ttl, s, entries, c, key, k, t, u);
      }
      StandsThrough(limit, ttl, s', entries + RecordsNow(s, c, key), commands[1..], key, k, c.clock, t, duration);
      assert entries + (RecordsNow(s, c, key) + Recorded(limit, ttl, s', commands[1..], key))
          == (entries + RecordsNow(s, c, key)) + Recorded(limit, ttl, s', commands[1..], key);
    }
  }

  lemma LooksRecordNothing(s: Server, c: Command, key: string)
    requires c.Look?
    ensures RecordsNow(s, c, key) == []
  {
  }

  lemma FreshStands(limit: Limits, ttl: int, key: string, k: nat, clock: int, t: int, u: int)
    requires limit(key) >= 1 && k >= 1
    ensures Stands(limit, ttl, Server(map[], map[]), [], key, k, clock, t, u)
  {
    assert Flying(Server(map[], map[]), key, false) == {} && Flying(Server(map[], map[]), key, true) == {};
  }

  /** However the commands of concurrent requests mix: with never more than k allowed requests
      of a key in flight, an interval of duration seconds sees at most limit + 2(k - 1) of
      them let through. */
  lemma FlightBound(limit: Limits, ttl: int, commands: seq<Command>, start: int, key: string, duration: int,
                    k: nat, t: int)
    requires limit(key) >= 1 && ttl > 0 && 1000 * duration <= ttl && k >= 1
    requires InTime(start, commands) && LooksUse(duration, key, commands)
    requires FewInFlight(k, limit, ttl, Server(map[], map[]), commands, key)
    ensures CountIn(Recorded(limit, ttl, Server(map[], map[]), commands, key), t, t + 1000 * duration)
            <= limit(key) + 2 * (k - 1)
  {
    FreshStands(limit, ttl, key, k, start, t, t + 1000 * duration);
    StandsThrough(limit, ttl, Server(map[], map[]), [], commands, key, k, start, t, duration);
    hide Recorded;
    var recorded := Recorded(limit, ttl, Server(map[], map[]), commands, key);
    assert [] + recorded == recorded;
  }
}
