/**
 The two rate limiters, in memory (in_memory.go) and on a Redis list
 (middleware/rate-limit.go), over a shared clock of milliseconds, and the sliding
 log both are meant to be.
 */
module RateLimit {
  import opened Outcomes

  // ----- In memory: a queue of Unix seconds per key -----

  type Store = map<string, seq<int>>

  function Seconds(clock: int): int { clock / 1000 }

  /** One request against the queue of its key, absent or never empty. */
  function Offer(queue: Option<seq<int>>, max: nat, duration: int, now: int): (r: (bool, seq<int>))
    requires queue.Some? ==> queue.value != []
    ensures r.1 != []
  {
    match queue
    case None => (true, [now])
    case Some(q) =>
      if |q| < max then (true, q + [now])
      else if now - q[0] >= duration then (true, q[1..] + [now])
      else (false, q)
  }

  ghost predicate NoEmptyQueue(store: Store) {
    forall key :: key in store ==> store[key] != []
  }

  function QueueOf(store: Store, key: string): Option<seq<int>> {
    if key in store then Some(store[key]) else None
  }

  function Swept(store: Store, expiration: int, now: int): Store {
    map key | key in store && store[key] != [] && now - store[key][|store[key]| - 1] <= expiration :: store[key]
  }

  class InMemoryRateLimiter {
    var store: Store
    var expiration: int  // whole seconds

    ghost predicate Valid()
      reads this
    {
      NoEmptyQueue(store)
    }

    constructor (expiration: int)
      ensures Valid() && store == map[] && this.expiration == expiration
    {
      store := map[];
      this.expiration := expiration;
    }

    method Request(key: string, max: nat, duration: int, now: int) returns (ok: bool)
      requires Valid()
      modifies this`store
      ensures Valid()
      ensures var (accepted, queue) := Offer(QueueOf(old(store), key), max, duration, now);
              ok == accepted && store == old(store)[key := queue]
    {
      if key in store {
        var queue := store[key];
        if |queue| < max {
          store := store[key := queue + [now]];
          return true;
        }
        if now - queue[0] >= duration {
          queue := queue[1..];
          queue := queue + [now];
          store := store[key := queue];
          return true;
        }
        assert store == store[key := store[key]];
        return false;
      }
      var queue: seq<int> := [];
      queue := queue + [now];
      assert queue == [now];
      store := store[key := queue];
      ok := true;
    }

    // One pass of the background sweeper.
    method ClearExpiredItems(now: int)
      requires Valid()
      modifies this`store
      ensures Valid() && store == Swept(old(store), expiration, now)
    {
      var todo := store.Keys;
      while todo != {}
        invariant todo <= store.Keys <= old(store).Keys
        invariant forall key :: key in store ==> store[key] == old(store)[key]
        invariant forall key :: key in old(store) && key !in todo ==>
                    (key in store <==> key in Swept(old(store), expiration, now))
        decreases |todo|
      {
        var key :| key in todo;
        var queue := store[key];
        var size := |queue|;
        if size == 0 || now - queue[size - 1] > expiration {
          store := store - {key};
        }
        todo := todo - {key};
      }
    }
  }

  // ----- Redis: a list per key, newest first, with a deadline -----

  datatype RedisList = RedisList(items: seq<int>, deadline: Option<int>)

  type Keyspace = map<string, RedisList>

  datatype Decision = Allow | TooMany | ServerError

  // Expired keys are gone.
  function Live(keys: Keyspace, key: string, now: int): seq<int> {
    if key in keys && (keys[key].deadline.None? || now < keys[key].deadline.value) then keys[key].items else []
  }

  /** int64(d.Seconds()): whole seconds, truncated toward zero. */
  function Elapsed(now: int, before: int): int {
    if now >= before then (now - before) / 1000 else -((before - now) / 1000)
  }

  /** LTRIM key 0 max-1: the index of a max below one counts from the end. */
  function Trim(items: seq<int>, max: int): seq<int> {
    var kept := if max >= 1 then max else |items| + max;
    if kept <= 0 then [] else if |items| <= kept then items else items[..kept]
  }

  /** One request against the live list: the answer, and the new list when it is touched. */
  function Push(items: seq<int>, max: int, duration: int, now: int): (Decision, Option<seq<int>>) {
    if |items| < max then (Allow, Some([now] + items))
    else if items == [] then (ServerError, None)  // no oldest entry to parse
    else if Elapsed(now, items[|items| - 1]) < duration then (TooMany, Some(items))
    else (Allow, Some(Trim([now] + items, max)))
  }

  class Redis {
    var keys: Keyspace

    constructor ()
      ensures keys == map[]
    {
      keys := map[];
    }

    method LPush(key: string, now: int)
      modifies this
      ensures keys == old(keys)[key := RedisList([now] + Live(old(keys), key, now),
                                                 if Live(old(keys), key, now) == [] then None else old(keys)[key].deadline)]
    {
      var deadline := None;
      if |Live(keys, key, now)| > 0 {
        deadline := keys[key].deadline;
      }
      keys := keys[key := RedisList([now] + Live(keys, key, now), deadline)];
    }

    method LTrim(key: string, max: int, now: int)
      requires key in keys
      modifies this
      ensures keys == old(keys)[key := old(keys)[key].(items := Trim(Live(old(keys), key, now), max))]
    {
      keys := keys[key := keys[key].(items := Trim(Live(keys, key, now), max))];
    }

    method Expire(key: string, ttl: int, now: int)
      requires key in keys
      modifies this
      ensures keys == old(keys)[key := old(keys)[key].(deadline := Some(now + ttl))]
    {
      keys := keys[key := keys[key].(deadline := Some(now + ttl))];
    }

    method RateLimit(key: string, max: int, duration: int, ttl: int, now: int) returns (decision: Decision)
      modifies this
      ensures var (answer, items) := Push(Live(old(keys), key, now), max, duration, now);
              && decision == answer
              && keys == match items
                         case None => old(keys)
                         case Some(list) => old(keys)[key := RedisList(list, Some(now + ttl))]
    {
      var length := |Live(keys, key, now)|;
      if length < max {
        LPush(key, now);
        Expire(key, ttl, now);
        return Allow;
      }
      if length == 0 {
        return ServerError;
      }
      var oldest := Live(keys, key, now)[length - 1];
      if Elapsed(now, oldest) < duration {
        Expire(key, ttl, now);
        return TooMany;
      }
      LPush(key, now);
      LTrim(key, max, now);
      Expire(key, ttl, now);
      decision := Allow;
    }
  }

  // ----- Runs -----

  datatype Event =
    | Request(key: string, duration: int, clock: int)
    | Sweep(clock: int)

  // Every key has one limit, as every key carries its route group's mark.
  type Limits = string -> nat

  function MemoryRun(limit: Limits, expiration: int, store: Store, events: seq<Event>): (decisions: seq<bool>)
    requires NoEmptyQueue(store)
    decreases |events|
  {
    if events == [] then []
    else
      match events[0]
      case Sweep(clock) => MemoryRun(limit, expiration, Swept(store, expiration, Seconds(clock)), events[1..])
      case Request(key, duration, clock) =>
        var (ok, queue) := Offer(QueueOf(store, key), limit(key), duration, Seconds(clock));
        [ok] + MemoryRun(limit, expiration, store[key := queue], events[1..])
  }

  function RedisRun(limit: Limits, ttl: int, keys: Keyspace, events: seq<Event>): (decisions: seq<Decision>)
    decreases |events|
  {
    if events == [] then []
    else
      match events[0]
      case Sweep(_) => RedisRun(limit, ttl, keys, events[1..])
      case Request(key, duration, clock) =>
        var (decision, items) := Push(Live(keys, key, clock), limit(key), duration, clock);
        var keys' := if items.None? then keys else keys[key := RedisList(items.value, Some(clock + ttl))];
        [decision] + RedisRun(limit, ttl, keys', events[1..])
  }

  predicate Timely(from: int, events: seq<Event>)
    decreases |events|
  {
    events == [] || (from <= events[0].clock && Timely(events[0].clock, events[1..]))
  }

  predicate DurationsAtMost(bound: int, events: seq<Event>) {
    forall e :: e in events && e.Request? ==> e.duration <= bound
  }

  function WithoutSweeps(events: seq<Event>): seq<Event> {
    if events == [] then []
    else if events[0].Sweep? then WithoutSweeps(events[1..])
    else [events[0]] + WithoutSweeps(events[1..])
  }

  // ----- The sliding log -----

  // Every accepted request, ever.
  type Log = map<string, seq<int>>

  type Meter = (int, int) -> int

  function Entries(log: Log, key: string): seq<int> {
    if key in log then log[key] else []
  }

  /** A limit of zero still lets the first request of a fresh key through. */
  function Effective(limit: nat): (m: nat)
    ensures m >= 1
  {
    if limit == 0 then 1 else limit
  }

  /** Accept unless the max-th most recent accepted request is too recent. */
  predicate Admits(meter: Meter, entries: seq<int>, max: nat, duration: int, clock: int)
    requires max >= 1
  {
    |entries| < max || meter(clock, entries[|entries| - max]) >= duration
  }

  function Logged(meter: Meter, limit: Limits, log: Log, e: Event): Log
    requires e.Request?
  {
    var entries := Entries(log, e.key);
    if Admits(meter, entries, Effective(limit(e.key)), e.duration, e.clock) then log[e.key := entries + [e.clock]] else log
  }

  function LogRun(meter: Meter, limit: Limits, log: Log, events: seq<Event>): (decisions: seq<bool>)
    decreases |events|
  {
    if events == [] then []
    else if events[0].Sweep? then LogRun(meter, limit, log, events[1..])
    else
      var e := events[0];
      [Admits(meter, Entries(log, e.key), Effective(limit(e.key)), e.duration, e.clock)]
      + LogRun(meter, limit, Logged(meter, limit, log, e), events[1..])
  }

  /** How the in-memory limiter measures: a difference of whole Unix seconds. */
  function SecondsApart(now: int, before: int): int { Seconds(now) - Seconds(before) }

  /** The clock readings of the accepted requests of a key. */
  function AcceptedTimes(events: seq<Event>, decisions: seq<bool>, key: string): seq<int>
    decreases |events|
  {
    if events == [] then []
    else if events[0].Sweep? then AcceptedTimes(events[1..], decisions, key)
    else if decisions == [] then []
    else
      (if events[0].key == key && decisions[0] then [events[0].clock] else [])
      + AcceptedTimes(events[1..], decisions[1..], key)
  }
}
