/**
 The Redis limiter's commands one by one: a request looks at the list and writes to it in
 separate round trips, between which other requests' commands may run.
 */
module RedisCommands {
  import opened Outcomes
  import opened RateLimit
  import opened RateLimitProof

  // Look stands for LLEN and LINDEX, which settle the answer, Finish for the writes the
  // answer leads to, with their EXPIRE.  Sessions are numbered per key.
  datatype Command =
    | Look(key: string, session: nat, duration: int, clock: int)
    | Finish(key: string, session: nat, clock: int)

  // What a session that has looked will write: one more entry, trimming when the list was
  // full, or only the new deadline.
  datatype Write = Record(full: bool) | Refuse

  datatype Server = Server(keys: Keyspace, waiting: map<(string, nat), Write>)

  function Answer(limit: Limits, keys: Keyspace, key: string, duration: int, clock: int): Decision {
    Push(Live(keys, key, clock), limit(key), duration, clock).0
  }

  // A server error writes nothing.
  function WriteOf(limit: Limits, keys: Keyspace, c: Command): Option<Write>
    requires c.Look?
  {
    match Answer(limit, keys, c.key, c.duration, c.clock)
    case Allow => Some(Record(|Live(keys, c.key, c.clock)| >= limit(c.key)))
    case TooMany => Some(Refuse)
    case ServerError => None
  }

  function Written(limit: Limits, ttl: int, keys: Keyspace, key: string, w: Write, clock: int): Keyspace {
    match w
    case Record(full) =>
      var pushed := [clock] + Live(keys, key, clock);
      keys[key := RedisList(if full then Trim(pushed, limit(key)) else pushed, Some(clock + ttl))]
    case Refuse =>
      // EXPIRE of a list that is gone does nothing.
      if Live(keys, key, clock) == [] then keys
      else keys[key := RedisList(Live(keys, key, clock), Some(clock + ttl))]
  }

  function After(limit: Limits, ttl: int, s: Server, c: Command): Server {
    var session := (c.key, c.session);
    match c
    case Look(_, _, _, _) =>
      if session in s.waiting then s
      else
        (match WriteOf(limit, s.keys, c)
         case None => s
         case Some(w) => s.(waiting := s.waiting[session := w]))
    case Finish(key, _, clock) =>
      if session !in s.waiting then s
      else Server(Written(limit, ttl, s.keys, key, s.waiting[session], clock), s.waiting - {session})
  }

  function AnswersNow(limit: Limits, s: Server, c: Command, key: string): seq<Decision> {
    if c.key == key && c.Look? && (key, c.session) !in s.waiting
    then [Answer(limit, s.keys, c.key, c.duration, c.clock)] else []
  }

  // When an allowed request is let through: at its write.
  function RecordsNow(s: Server, c: Command, key: string): seq<int> {
    if c.key == key && c.Finish? && (key, c.session) in s.waiting && s.waiting[(key, c.session)].Record? then [c.clock]
    else []
  }

  /** The answers to a key's requests, in the order of their looks. */
  function Answered(limit: Limits, ttl: int, s: Server, commands: seq<Command>, key: string): seq<Decision>
    decreases |commands|
  {
    if commands == [] then []
    else AnswersNow(limit, s, commands[0], key)
         + Answered(limit, ttl, After(limit, ttl, s, commands[0]), commands[1..], key)
  }

  /** When the allowed requests of a key were let through. */
  function Recorded(limit: Limits, ttl: int, s: Server, commands: seq<Command>, key: string): seq<int>
    decreases |commands|
  {
    if commands == [] then []
    else RecordsNow(s, commands[0], key) + Recorded(limit, ttl, After(limit, ttl, s, commands[0]), commands[1..], key)
  }

  // ----- The commands of one key -----

  function On(commands: seq<Command>, key: string): seq<Command> {
    if commands == [] then []
    else if commands[0].key == key then [commands[0]] + On(commands[1..], key)
    else On(commands[1..], key)
  }

  ghost predicate SameOn(key: string, s: Server, s': Server) {
    && (key in s.keys <==> key in s'.keys)
    && (key in s.keys ==> s.keys[key] == s'.keys[key])
    && forall n :: ((key, n) in s.waiting <==> (key, n) in s'.waiting)
                   && ((key, n) in s.waiting ==> s.waiting[(key, n)] == s'.waiting[(key, n)])
  }

  lemma ElsewhereUnseen(limit: Limits, ttl: int, s: Server, c: Command, key: string)
    requires c.key != key
    ensures SameOn(key, s, After(limit, ttl, s, c))
    ensures AnswersNow(limit, s, c, key) == [] && RecordsNow(s, c, key) == []
  {
    hide Push, Trim, Live;
  }

  lemma SameStep(limit: Limits, ttl: int, s: Server, s': Server, c: Command)
    requires SameOn(c.key, s, s')
    ensures SameOn(c.key, After(limit, ttl, s, c), After(limit, ttl, s', c))
    ensures AnswersNow(limit, s, c, c.key) == AnswersNow(limit, s', c, c.key)
    ensures RecordsNow(s, c, c.key) == RecordsNow(s', c, c.key)
  {
    hide Push, Trim;
    assert Live(s.keys, c.key, c.clock) == Live(s'.keys, c.key, c.clock);
  }

  // A key's answers and records come from the commands on that key alone.
  lemma {:induction false} KeysAreApart(limit: Limits, ttl: int, s: Server, s': Server, commands: seq<Command>,
                                        key: string)
    requires SameOn(key, s, s')
    ensures Answered(limit, ttl, s, commands, key) == Answered(limit, ttl, s', On(commands, key), key)
    ensures Recorded(limit, ttl, s, commands, key) == Recorded(limit, ttl, s', On(commands, key), key)
    decreases |commands|
  {
    if commands != [] {
      hide After, AnswersNow, RecordsNow, SameOn;
      var c, rest := commands[0], commands[1..];
      if c.key == key {
        SameStep(limit, ttl, s, s', c);
        KeysAreApart(limit, ttl, After(limit, ttl, s, c), After(limit, ttl, s', c), rest, key);
        assert ([c] + On(rest, key))[1..] == On(rest, key);
      } else {
        ElsewhereUnseen(limit, ttl, s, c, key);
        SameThrough(key, s', s, After(limit, ttl, s, c));
        KeysAreApart(limit, ttl, After(limit, ttl, s, c), s', rest, key);
      }
    }
  }

  lemma SameThrough(key: string, a: Server, b: Server, c: Server)
    requires SameOn(key, b, a) && SameOn(key, b, c)
    ensures SameOn(key, c, a)
  {
  }

  // ----- Requests one after another -----

  // Every request looks and writes before the next one looks.
  function OneByOne(events: seq<Event>): seq<Command> {
    if events == [] then []
    else if events[0].Sweep? then OneByOne(events[1..])
    else
      var e := events[0];
      [Look(e.key, 0, e.duration, e.clock), Finish(e.key, 0, e.clock)] + OneByOne(events[1..])
  }

  // Undisturbed, look and write are one request of the limiter.
  lemma UndisturbedIsRequest(limit: Limits, ttl: int, s: Server, e: Event)
    requires e.Request? && (e.key, 0) !in s.waiting
    ensures var look, finish := Look(e.key, 0, e.duration, e.clock), Finish(e.key, 0, e.clock);
            var s', answer := After(limit, ttl, s, look), Answer(limit, s.keys, e.key, e.duration, e.clock);
            && After(limit, ttl, s', finish) == Server(Touched(limit, ttl, s.keys, e), s.waiting)
            && AnswersNow(limit, s, look, e.key) == [answer] && AnswersNow(limit, s', finish, e.key) == []
            && RecordsNow(s, look, e.key) == []
            && RecordsNow(s', finish, e.key) == if answer == Allow then [e.clock] else []
  {
    hide Live;
    var look := Look(e.key, 0, e.duration, e.clock);
    var s' := After(limit, ttl, s, look);
    assert s'.keys == s.keys && s'.waiting - {(e.key, 0)} == s.waiting;
  }

  lemma RunRequest(limit: Limits, ttl: int, keys: Keyspace, events: seq<Event>)
    requires events != [] && events[0].Request?
    ensures RedisRun(limit, ttl, keys, events)
         == [Answer(limit, keys, events[0].key, events[0].duration, events[0].clock)]
            + RedisRun(limit, ttl, Touched(limit, ttl, keys, events[0]), events[1..])
  {
    hide Push, Live;
  }

  lemma TwoCommands(limit: Limits, ttl: int, s: Server, a: Command, b: Command, rest: seq<Command>, key: string)
    ensures var s1 := After(limit, ttl, s, a);
            var s2 := After(limit, ttl, s1, b);
            && Answered(limit, ttl, s, [a, b] + rest, key)
               == AnswersNow(limit, s, a, key) + AnswersNow(limit, s1, b, key) + Answered(limit, ttl, s2, rest, key)
            && Recorded(limit, ttl, s, [a, b] + rest, key)
               == RecordsNow(s, a, key) + RecordsNow(s1, b, key) + Recorded(limit, ttl, s2, rest, key)
  {
    hide After, AnswersNow, RecordsNow;
    assert ([a, b] + rest)[1..] == [b] + rest && ([b] + rest)[1..] == rest;
  }

  lemma OneByOneStep(limit: Limits, ttl: int, s: Server, events: seq<Event>)
    requires s.waiting == map[] && events != [] && events[0].Request?
    ensures var e := events[0];
            var s', answer := Server(Touched(limit, ttl, s.keys, e), s.waiting),
                              Answer(limit, s.keys, e.key, e.duration, e.clock);
            && Answered(limit, ttl, s, OneByOne(events), e.key)
               == [answer] + Answered(limit, ttl, s', OneByOne(events[1..]), e.key)
            && Recorded(limit, ttl, s, OneByOne(events), e.key)
               == Taken(e, answer == Allow, e.key) + Recorded(limit, ttl, s', OneByOne(events[1..]), e.key)
  {
    hide After, AnswersNow, RecordsNow, Push, Touched, Answered, Recorded, Live;
    var e := events[0];
    UndisturbedIsRequest(limit, ttl, s, e);
    TwoCommands(limit, ttl, s, Look(e.key, 0, e.duration, e.clock), Finish(e.key, 0, e.clock), OneByOne(events[1..]), e.key);
  }

  lemma AllowedCons(answer: Decision, later: seq<Decision>)
    ensures Allowed([answer] + later) == [answer == Allow] + Allowed(later)
  {
  }

  lemma {:induction false} OneByOneIsRun(limit: Limits, ttl: int, s: Server, events: seq<Event>, key: string)
    requires s.waiting == map[] && forall e :: e in events && e.Request? ==> e.key == key
    ensures Answered(limit, ttl, s, OneByOne(events), key) == RedisRun(limit, ttl, s.keys, events)
    ensures Recorded(limit, ttl, s, OneByOne(events), key)
         == AcceptedTimes(events, Allowed(RedisRun(limit, ttl, s.keys, events)), key)
    decreases |events|
  {
    if events != [] {
      var e := events[0];
      assert forall f :: f in events[1..] ==> f in events;
      if e.Sweep? {
        hide After, AnswersNow, RecordsNow, Answered, Recorded, Push;
        OneByOneIsRun(limit, ttl, s, events[1..], key);
      } else {
        hide After, Push, Touched, Answer, Taken, Answered, Recorded, RedisRun, AcceptedTimes, Allowed, OneByOne;
        var s' := Server(Touched(limit, ttl, s.keys, e), s.waiting);
        OneByOneStep(limit, ttl, s, events);
        RunRequest(limit, ttl, s.keys, events);
        OneByOneIsRun(limit, ttl, s', events[1..], key);
        var answer, later := Answer(limit, s.keys, e.key, e.duration, e.clock), RedisRun(limit, ttl, s'.keys, events[1..]);
        AllowedCons(answer, later);
        AcceptedTimesRequest(events, answer == Allow, Allowed(later), key);
      }
    }
  }

  /** However the commands of other keys are mixed in: a key whose requests each write
      before the next one looks is answered as by the limiter of whole requests. */
  lemma UndisturbedIsRun(limit: Limits, ttl: int, keys: Keyspace, commands: seq<Command>, events: seq<Event>,
                         key: string)
    requires (forall e :: e in events && e.Request? ==> e.key == key) && On(commands, key) == OneByOne(events)
    ensures Answered(limit, ttl, Server(keys, map[]), commands, key) == RedisRun(limit, ttl, keys, events)
    ensures Recorded(limit, ttl, Server(keys, map[]), commands, key)
         == AcceptedTimes(events, Allowed(RedisRun(limit, ttl, keys, events)), key)
  {
    KeysAreApart(limit, ttl, Server(keys, map[]), Server(keys, map[]), commands, key);
    OneByOneIsRun(limit, ttl, Server(keys, map[]), events, key);
  }

  // The window bound of whole requests then holds of the commands.
  lemma UndisturbedWindowBound(limit: Limits, ttl: int, commands: seq<Command>, events: seq<Event>, start: int,
                               key: string, duration: int, t: int)
    requires (forall e :: e in events && e.Request? ==> e.key == key) && On(commands, key) == OneByOne(events)
    requires forall key :: limit(key) >= 1
    requires Timely(start, events) && KeyUses(duration, key, events) && 1000 * duration <= ttl
    ensures CountIn(Recorded(limit, ttl, Server(map[], map[]), commands, key), t, t + 1000 * duration) <= limit(key)
  {
    hide RedisRun, AcceptedTimes, CountIn, Allowed;
    UndisturbedIsRun(limit, ttl, map[], commands, events, key);
    RedisWindowBound(limit, ttl, events, start, key, duration, t);
  }
}
