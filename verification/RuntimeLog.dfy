/** The runtime log buffer and its cursor reader (service/runtime.go). */
module RuntimeLog {
  import opened Outcomes
  import opened Sequences

  datatype Entry = Entry(number: int, stream: string, level: string, message: string)

  const LOG_LIMIT := 400

  function PageSize(limit: int): (n: nat)
    ensures 1 <= n <= 300
  {
    if limit <= 0 then 100 else if limit > 300 then 300 else limit
  }

  /** The first entries past the cursor, at most n. */
  function Page(logs: seq<Entry>, after: int, n: nat): seq<Entry>
    decreases |logs|
  {
    if logs == [] || n == 0 then []
    else if logs[0].number <= after then Page(logs[1..], after, n)
    else [logs[0]] + Page(logs[1..], after, n - 1)
  }

  class Registry {
    var logSeq: int
    var logs: seq<Entry>

    constructor ()
      ensures logSeq == 0 && logs == []
    {
      logSeq, logs := 0, [];
    }

    method AppendLog(stream: string, level: string, message: string)
      modifies this
      ensures logSeq == old(logSeq) + 1
      ensures logs == LastN(old(logs) + [Entry(logSeq, stream, level, message)], LOG_LIMIT)
    {
      logSeq := logSeq + 1;
      logs := logs + [Entry(logSeq, stream, level, message)];
      if |logs| > LOG_LIMIT {
        logs := logs[|logs| - LOG_LIMIT..];
      }
    }

    // The log part of waiting for the process: only an error leaves an entry.
    method LogProcessExit(error: Option<string>)
      modifies this
      ensures error.None? ==> logSeq == old(logSeq) && logs == old(logs)
      ensures error.Some? ==>
                && logSeq == old(logSeq) + 1
                && logs == LastN(old(logs) + [Entry(logSeq, "system", "error", "Mihomo 进程退出: " + error.value)], LOG_LIMIT)
    {
      if error.Some? {
        logSeq := logSeq + 1;
        logs := logs + [Entry(logSeq, "system", "error", "Mihomo 进程退出: " + error.value)];
        if |logs| > LOG_LIMIT {
          logs := logs[|logs| - LOG_LIMIT..];
        }
      }
    }

    method GetRuntimeLogs(after: int, limit: int) returns (items: seq<Entry>)
      ensures items == Page(logs, after, PageSize(limit))
    {
      var n := limit;
      if n <= 0 {
        n := 100;
      }
      if n > 300 {
        n := 300;
      }
      items := [];
      for i := 0 to |logs|
        invariant |items| < n
        invariant items + Page(logs[i..], after, n - |items|) == Page(logs, after, n)
      {
        assert logs[i..][1..] == logs[i + 1..];
        if logs[i].number <= after {
          continue;
        }
        items := items + [logs[i]];
        if |items| >= n {
          break;
        }
      }
    }
  }

  // ----- Runs with one polling reader -----

  datatype Event = Append(stream: string, level: string, message: string) | Poll(limit: int)

  // all: every entry ever appended; cursor: the last number received.
  datatype World = World(all: seq<Entry>, logs: seq<Entry>, cursor: int, received: seq<Entry>)

  const EMPTY := World([], [], 0, [])

  function React(w: World, e: Event): World {
    match e
    case Append(stream, level, message) =>
      var entry := Entry(|w.all| + 1, stream, level, message);
      w.(all := w.all + [entry], logs := LastN(w.logs + [entry], LOG_LIMIT))
    case Poll(limit) =>
      var page := Page(w.logs, w.cursor, PageSize(limit));
      w.(cursor := if page == [] then w.cursor else page[|page| - 1].number, received := w.received + page)
  }

  function Run(events: seq<Event>): World {
    if events == [] then EMPTY else React(Run(events[..|events| - 1]), events[|events| - 1])
  }

  // ----- Results -----

  predicate Numbered(all: seq<Entry>) {
    forall i :: 0 <= i < |all| ==> all[i].number == i + 1
  }

  function Max(a: int, b: int): int { if a > b then a else b }

  function Min(a: int, b: int): int { if a < b then a else b }

  lemma LastNGrows<T>(s: seq<T>, x: T, n: nat)
    requires n > 0
    ensures LastN(LastN(s, n) + [x], n) == LastN(s + [x], n)
  {
  }

  lemma SliceCons<T>(s: seq<T>, from: nat, to: nat)
    requires from < to <= |s|
    ensures s[from..to] == [s[from]] + s[from + 1..to]
  {
  }

  lemma {:induction false} PageOfConsecutive(all: seq<Entry>, from: nat, after: nat, n: nat)
    requires Numbered(all) && from <= |all| && after <= |all|
    ensures Page(all[from..], after, n) == all[Max(after, from)..Min(Max(after, from) + n, |all|)]
    decreases |all| - from
  {
    if from < |all| && n > 0 {
      assert all[from..][1..] == all[from + 1..] && all[from..][0].number == from + 1;
      hide Numbered;
      if from + 1 <= after {
        PageOfConsecutive(all, from + 1, after, n);
      } else {
        PageOfConsecutive(all, from + 1, after, n - 1);
        SliceCons(all, from, Min(from + n, |all|));
      }
    }
  }

  // The buffer is the last min(n, 400) entries, numbered consecutively.
  ghost predicate Buffered(w: World) {
    && Numbered(w.all)
    && w.logs == LastN(w.all, 400)
    && 0 <= w.cursor <= |w.all|
  }

  // Where a poll starts reading: after the cursor, or at the oldest entry still there.
  function From(w: World): int { Max(w.cursor, |w.all| - 400) }

  // Up to as many entries as asked for, a hundred by default and three hundred at most.
  function To(w: World, limit: int): int {
    Min(From(w) + (if limit <= 0 then 100 else Min(limit, 300)), |w.all|)
  }

  lemma PollReturns(w: World, limit: int)
    requires Buffered(w)
    ensures 0 <= From(w) <= To(w, limit) <= |w.all|
    ensures Page(w.logs, w.cursor, PageSize(limit)) == w.all[From(w)..To(w, limit)]
  {
    var oldest, n := Max(0, |w.all| - LOG_LIMIT), PageSize(limit);
    assert w.logs == w.all[oldest..];
    hide Page, LastN;
    PageOfConsecutive(w.all, oldest, w.cursor, n);
    assert From(w) == Max(w.cursor, oldest) && To(w, limit) == Min(From(w) + n, |w.all|);
  }

  lemma PollStep(w: World, limit: int)
    requires Buffered(w)
    ensures 0 <= From(w) <= To(w, limit) <= |w.all|
    ensures React(w, Poll(limit))
            == w.(cursor := Max(w.cursor, To(w, limit)), received := w.received + w.all[From(w)..To(w, limit)])
  {
    PollReturns(w, limit);
    hide Page, PageSize;
  }

  lemma StepBuffered(w: World, e: Event)
    requires Buffered(w)
    ensures Buffered(React(w, e))
  {
    match e
    case Append(stream, level, message) =>
      LastNGrows(w.all, Entry(|w.all| + 1, stream, level, message), LOG_LIMIT);
      hide LastN;
    case Poll(limit) => PollStep(w, limit);
  }

  lemma {:induction false} RunBuffered(events: seq<Event>)
    ensures Buffered(Run(events))
    decreases |events|
  {
    if events != [] {
      RunBuffered(events[..|events| - 1]);
      StepBuffered(Run(events[..|events| - 1]), events[|events| - 1]);
      hide Buffered, React;
    }
  }

  // After any run the buffer is the tail of everything appended, and a poll returns the
  // entries right after the cursor, or from the oldest one still buffered.
  lemma BufferAndPage(events: seq<Event>, limit: int)
    ensures var w := Run(events);
            && Numbered(w.all)
            && w.logs == LastN(w.all, 400)
            && 0 <= From(w) <= To(w, limit) <= |w.all|
            && Page(w.logs, w.cursor, PageSize(limit)) == w.all[From(w)..To(w, limit)]
  {
    hide Run, Page, LastN;
    RunBuffered(events);
    PollReturns(Run(events), limit);
  }

  // No poll of the run came after its cursor had fallen out of the buffer.
  predicate NeverFellOut(events: seq<Event>) {
    events == [] ||
    (NeverFellOut(events[..|events| - 1]) && !FallsOut(Run(events[..|events| - 1]), events[|events| - 1]))
  }

  predicate FallsOut(w: World, e: Event) {
    e.Poll? && w.cursor < |w.all| - 400
  }

  // The reader holds true entries in strictly increasing order, all of them up to the
  // cursor or fewer.
  ghost predicate Reads(w: World) {
    && (forall i, j :: 0 <= i < j < |w.received| ==> w.received[i].number < w.received[j].number)
    && (forall i :: 0 <= i < |w.received| ==> w.received[i].number <= w.cursor && w.received[i] in w.all)
    && |w.received| <= w.cursor <= |w.all|
    && (|w.received| == w.cursor ==> w.received == w.all[..w.cursor])
  }

  lemma AppendReads(w: World, e: Event)
    requires Buffered(w) && Reads(w) && e.Append?
    ensures Reads(React(w, e)) && React(w, e).received == w.received && React(w, e).cursor == w.cursor
  {
  }

  lemma JoinedIncreases(received: seq<Entry>, all: seq<Entry>, cursor: int, from: nat, to: nat)
    requires Numbered(all) && cursor <= from <= to <= |all|
    requires forall i, j :: 0 <= i < j < |received| ==> received[i].number < received[j].number
    requires forall i :: 0 <= i < |received| ==> received[i].number <= cursor && received[i] in all
    ensures var r := received + all[from..to];
            && (forall i, j :: 0 <= i < j < |r| ==> r[i].number < r[j].number)
            && (forall i :: 0 <= i < |r| ==> r[i].number <= Max(cursor, to) && r[i] in all)
  {
  }

  lemma PollReads(w: World, limit: int)
    requires Buffered(w) && Reads(w)
    ensures Reads(React(w, Poll(limit)))
    ensures |React(w, Poll(limit)).received| == React(w, Poll(limit)).cursor <==>
              |w.received| == w.cursor && !FallsOut(w, Poll(limit))
  {
    PollStep(w, limit);
    hide React, LastN, Numbered;
    var from, to := From(w), To(w, limit);
    JoinedIncreases(w.received, w.all, w.cursor, from, to);
    if |w.received| == w.cursor && from == w.cursor {
      assert w.all[..w.cursor] + w.all[from..to] == w.all[..to];
    }
  }

  // The stream is gapless exactly when the cursor never fell out of the buffer.
  lemma ReaderStream(events: seq<Event>)
    ensures Reads(Run(events))
    ensures NeverFellOut(events) <==> Run(events).received == Run(events).all[..Run(events).cursor]
  {
    GaplessIff(events);
    hide Run, NeverFellOut;
  }

  lemma {:induction false} GaplessIff(events: seq<Event>)
    ensures Reads(Run(events))
    ensures NeverFellOut(events) <==> |Run(events).received| == Run(events).cursor
    decreases |events|
  {
    if events != [] {
      var w, e := Run(events[..|events| - 1]), events[|events| - 1];
      GaplessIff(events[..|events| - 1]);
      RunBuffered(events[..|events| - 1]);
      if e.Append? {
        AppendReads(w, e);
      } else {
        PollReads(w, e.limit);
      }
    }
    hide Reads, Buffered, React, FallsOut;
  }
}
