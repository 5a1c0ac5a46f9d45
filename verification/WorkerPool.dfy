/**
 The node-test worker pool (service/proxy_node.go) as a state machine: goroutines over
 an unbuffered job channel, a result channel with room for every node, and a wait
 group; then the sequential collection of the results.
 */
module WorkerPool {
  import opened Outcomes
  import opened Orders

  // What one test reports; the outcome is the network's, the id is the node's.
  datatype Execution = Execution(nodeId: int, outcome: string)

  datatype Indexed = Indexed(index: nat, item: Execution)

  datatype Main = Spawning(started: nat) | Sending(next: nat) | Waiting | Draining

  datatype Worker = NotStarted | Receiving | Testing(index: nat) | Reporting(result: Indexed) | Exited

  datatype State = State(
    main: Main, workers: seq<Worker>, waitGroup: int,
    jobsClosed: bool, resultsClosed: bool, results: seq<Indexed>,
    begun: seq<nat>,             // history: the index of every test begun, in order
    outcomes: map<nat, string>)  // history: how the test of an index ended

  const MAX_PARALLELISM := 8

  function WorkerCount(nodes: nat): (w: nat)
    ensures w >= 1
  {
    var w := if nodes < MAX_PARALLELISM then nodes else MAX_PARALLELISM;
    if w <= 0 then 1 else w
  }

  function Init(nodes: seq<int>): State {
    State(Spawning(0), seq(WorkerCount(|nodes|), _ => NotStarted), 0, false, false, [], [], map[])
  }

  datatype Action =
    | Spawn
    | HandOff(w: nat)
    | Finish(w: nat, outcome: string)
    | Report(w: nat)
    | CloseJobs
    | Leave(w: nat)
    | Join

  predicate Enabled(nodes: seq<int>, s: State, a: Action) {
    match a
    case Spawn => s.main.Spawning? && s.main.started < |s.workers|
    case HandOff(w) => s.main.Sending? && s.main.next < |nodes| && w < |s.workers| && s.workers[w].Receiving?
    case Finish(w, _) => w < |s.workers| && s.workers[w].Testing? && s.workers[w].index < |nodes|
    case Report(w) => w < |s.workers| && s.workers[w].Reporting? && |s.results| < |nodes|
    case CloseJobs => s.main.Sending? && s.main.next >= |nodes|
    case Leave(w) => w < |s.workers| && s.workers[w].Receiving? && s.jobsClosed
    case Join => s.main.Waiting? && s.waitGroup == 0
  }

  function Step(nodes: seq<int>, s: State, a: Action): State
    requires Enabled(nodes, s, a)
  {
    match a
    case Spawn =>
      var started := s.main.started + 1;
      s.(main := if started == |s.workers| then Sending(0) else Spawning(started),
         workers := s.workers[s.main.started := Receiving],
         waitGroup := s.waitGroup + 1)
    case HandOff(w) =>
      s.(main := Sending(s.main.next + 1),
         workers := s.workers[w := Testing(s.main.next)],
         begun := s.begun + [s.main.next])
    case Finish(w, outcome) =>
      var index := s.workers[w].index;
      s.(workers := s.workers[w := Reporting(Indexed(index, Execution(nodes[index], outcome)))],
         outcomes := s.outcomes[index := outcome])
    case Report(w) =>
      s.(workers := s.workers[w := Receiving], results := s.results + [s.workers[w].result])
    case CloseJobs => s.(main := Waiting, jobsClosed := true)
    case Leave(w) => s.(workers := s.workers[w := Exited], waitGroup := s.waitGroup - 1)
    case Join => s.(main := Draining, resultsClosed := true)
  }

  // Go panics on a send to a closed channel and on a negative wait group.
  predicate Panics(s: State, a: Action) {
    match a
    case HandOff(_) => s.jobsClosed
    case Report(_) => s.resultsClosed
    case CloseJobs => s.jobsClosed
    case Leave(_) => s.waitGroup <= 0
    case Join => s.resultsClosed
    case _ => false
  }

  ghost predicate IsRun(nodes: seq<int>, s: State, actions: seq<Action>)
    decreases |actions|
  {
    actions != [] ==> Enabled(nodes, s, actions[0]) && IsRun(nodes, Step(nodes, s, actions[0]), actions[1..])
  }

  ghost function After(nodes: seq<int>, s: State, actions: seq<Action>): State
    requires IsRun(nodes, s, actions)
    decreases |actions|
  {
    if actions == [] then s else After(nodes, Step(nodes, s, actions[0]), actions[1..])
  }

  // ----- Collecting -----

  function CompareIndex(a: Indexed, b: Indexed): int {
    CompareInt(a.index, b.index)
  }

  function Items(ordered: seq<Indexed>): (items: seq<Execution>)
    ensures |items| == |ordered|
    ensures forall i :: 0 <= i < |ordered| ==> items[i] == ordered[i].item
  {
    if ordered == [] then [] else [ordered[0].item] + Items(ordered[1..])
  }

  /** The items written before the first write that fails. */
  function WrittenPrefix(persists: Execution -> bool, items: seq<Execution>): seq<Execution> {
    if items == [] || !persists(items[0]) then [] else [items[0]] + WrittenPrefix(persists, items[1..])
  }

  lemma {:induction false} WrittenUpTo(persists: Execution -> bool, items: seq<Execution>, n: nat)
    requires n <= |items| && forall i :: 0 <= i < n ==> persists(items[i])
    requires n < |items| ==> !persists(items[n])
    ensures WrittenPrefix(persists, items) == items[..n]
    decreases n
  {
    if n > 0 {
      WrittenUpTo(persists, items[1..], n - 1);
      assert items[..n] == [items[0]] + items[1..][..n - 1];
    }
  }

  /** Drains the closed result channel, sorts by index and persists in that order. */
  method Collect(buffered: seq<Indexed>, persists: Execution -> bool) returns (results: Option<seq<Execution>>,
                 written: seq<Execution>)
    ensures written == WrittenPrefix(persists, Items(Sort(CompareIndex, buffered)))
    ensures results == if written == Items(Sort(CompareIndex, buffered)) then Some(written) else None
  {
    hide Sort, Items, WrittenPrefix;
    var ordered: seq<Indexed> := [];
    for i := 0 to |buffered|
      invariant ordered == buffered[..i]
    {
      ordered := ordered + [buffered[i]];
    }
    assert ordered == buffered;
    ordered := Sort(CompareIndex, ordered);
    ghost var items := Items(ordered);
    written := [];
    for i := 0 to |ordered|
      invariant written == items[..i]
      invariant forall j :: 0 <= j < i ==> persists(items[j])
    {
      if !persists(ordered[i].item) {
        WrittenUpTo(persists, items, i);
        results := None;
        return;
      }
      written := written + [ordered[i].item];
    }
    WrittenUpTo(persists, items, |items|);
    results := Some(written);
  }
}
