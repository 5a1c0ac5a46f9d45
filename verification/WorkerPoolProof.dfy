/** Every interleaving of the worker pool is safe, live and complete. */
module WorkerPoolProof {
  import opened Outcomes
  import opened Orders
  import opened WorkerPool

  // ----- Sums over the workers -----

  function Sum(f: Worker -> nat, workers: seq<Worker>): nat {
    if workers == [] then 0 else Sum(f, workers[..|workers| - 1]) + f(workers[|workers| - 1])
  }

  lemma {:induction false} SumUpdate(f: Worker -> nat, workers: seq<Worker>, w: nat, x: Worker)
    requires w < |workers|
    ensures Sum(f, workers[w := x]) + f(workers[w]) == Sum(f, workers) + f(x)
    decreases |workers|
  {
    var last := |workers| - 1;
    if w < last {
      SumUpdate(f, workers[..last], w, x);
      assert workers[w := x][..last] == workers[..last][w := x];
    } else {
      assert workers[w := x][..last] == workers[..last];
    }
  }

  lemma {:induction false} SumCovers(f: Worker -> nat, workers: seq<Worker>, w: nat)
    requires w < |workers|
    ensures f(workers[w]) <= Sum(f, workers)
  {
    if w < |workers| - 1 {
      SumCovers(f, workers[..|workers| - 1], w);
    }
  }

  lemma {:induction false} SumOfConstant(f: Worker -> nat, workers: seq<Worker>, c: nat)
    requires forall w :: 0 <= w < |workers| ==> f(workers[w]) == c
    ensures Sum(f, workers) == c * |workers|
  {
    if workers != [] {
      SumOfConstant(f, workers[..|workers| - 1], c);
    }
  }

  lemma {:induction false} SumMonotone(f: Worker -> nat, g: Worker -> nat, workers: seq<Worker>)
    requires forall w: Worker :: f(w) <= g(w)
    ensures Sum(f, workers) <= Sum(g, workers)
  {
    if workers != [] {
      SumMonotone(f, g, workers[..|workers| - 1]);
    }
  }

  function One(w: Worker): nat { 1 }

  function IsTesting(w: Worker): nat { if w.Testing? then 1 else 0 }

  function IsOwing(w: Worker): nat { if w.Testing? || w.Reporting? then 1 else 0 }

  function IsRunning(w: Worker): nat { if w.NotStarted? || w.Exited? then 0 else 1 }

  function InFlight(s: State): nat { Sum(IsTesting, s.workers) }

  // ----- Invariant -----

  function Sent(nodes: seq<int>, s: State): nat {
    match s.main
    case Spawning(_) => 0
    case Sending(next) => next
    case _ => |nodes|
  }

  // The index a worker still owes a result for.
  function Owed(w: Worker): Option<nat> {
    match w
    case Testing(index) => Some(index)
    case Reporting(result) => Some(result.index)
    case _ => None
  }

  function Count(n: nat): seq<nat> { seq(n, i => i) }

  // The result is that of the test of its own index.
  predicate Genuine(nodes: seq<int>, s: State, r: Indexed) {
    r.index < |nodes| && r.index in s.outcomes && r.item == Execution(nodes[r.index], s.outcomes[r.index])
  }

  predicate WorkerFits(nodes: seq<int>, s: State, w: Worker) {
    match w
    case NotStarted => s.main.Spawning?
    case Receiving => true
    case Testing(index) => index < |nodes| && index !in s.outcomes
    case Reporting(result) => Genuine(nodes, s, result)
    case Exited => s.jobsClosed
  }

  ghost predicate Phases(nodes: seq<int>, s: State) {
    && |s.workers| == WorkerCount(|nodes|)
    && Sent(nodes, s) <= |nodes|
    && (s.jobsClosed <==> s.main.Waiting? || s.main.Draining?)
    && (s.resultsClosed <==> s.main.Draining?)
    && (s.main.Spawning? ==>
          && s.main.started < |s.workers|
          && forall w :: 0 <= w < |s.workers| ==> s.workers[w] == if w < s.main.started then Receiving else NotStarted)
    && (s.main.Draining? ==> forall w :: 0 <= w < |s.workers| ==> s.workers[w].Exited?)
  }

  ghost predicate Fits(nodes: seq<int>, s: State) {
    && (forall w :: 0 <= w < |s.workers| ==> WorkerFits(nodes, s, s.workers[w]))
    && (forall r :: 0 <= r < |s.results| ==> Genuine(nodes, s, s.results[r]))
    && (forall i :: i in s.outcomes ==> i < Sent(nodes, s))
  }

  // Every index sent is owed or delivered, at one place.
  ghost predicate Apart(sent: nat, workers: seq<Worker>, results: seq<Indexed>) {
    && (forall v, w :: 0 <= v < w < |workers| && Owed(workers[v]).Some? ==> Owed(workers[v]) != Owed(workers[w]))
    && (forall w, r :: 0 <= w < |workers| && 0 <= r < |results| ==> Owed(workers[w]) != Some(results[r].index))
    && (forall q, r :: 0 <= q < r < |results| ==> results[q].index != results[r].index)
    && (forall w :: 0 <= w < |workers| && Owed(workers[w]).Some? ==> Owed(workers[w]).value < sent)
    && (forall r :: 0 <= r < |results| ==> results[r].index < sent)
  }

  ghost predicate Tallies(nodes: seq<int>, s: State) {
    && s.waitGroup == Sum(IsRunning, s.workers)
    && Sum(IsOwing, s.workers) + |s.results| == Sent(nodes, s)
    && s.begun == Count(Sent(nodes, s))
  }

  ghost predicate Inv(nodes: seq<int>, s: State) {
    && Phases(nodes, s)
    && Fits(nodes, s)
    && Apart(Sent(nodes, s), s.workers, s.results)
    && Tallies(nodes, s)
  }

  lemma InitInv(nodes: seq<int>)
    ensures Inv(nodes, Init(nodes))
  {
    SumOfConstant(IsRunning, Init(nodes).workers, 0);
    SumOfConstant(IsOwing, Init(nodes).workers, 0);
  }

  lemma AllLeft(nodes: seq<int>, s: State)
    requires Fits(nodes, s) && s.main.Waiting? && Sum(IsRunning, s.workers) == 0
    ensures forall w :: 0 <= w < |s.workers| ==> s.workers[w].Exited?
  {
    forall w | 0 <= w < |s.workers| ensures s.workers[w].Exited? {
      SumCovers(IsRunning, s.workers, w);
      assert WorkerFits(nodes, s, s.workers[w]);
    }
  }

  lemma StepPhases(nodes: seq<int>, s: State, a: Action)
    requires Inv(nodes, s) && Enabled(nodes, s, a)
    ensures Phases(nodes, Step(nodes, s, a))
  {
    hide Apart, Count, Sum, WorkerCount;
    if a.Join? {
      AllLeft(nodes, s);
    }
  }

  lemma StepFits(nodes: seq<int>, s: State, a: Action)
    requires Inv(nodes, s) && Enabled(nodes, s, a)
    ensures Fits(nodes, Step(nodes, s, a))
  {
    hide Apart, Tallies, WorkerCount;
    var t := Step(nodes, s, a);
    if a.Finish? {
      FinishFits(nodes, s, a.w, a.outcome);
    } else {
      forall w | 0 <= w < |t.workers| ensures WorkerFits(nodes, t, t.workers[w]) {
        assert WorkerFits(nodes, s, s.workers[w]);
      }
    }
  }

  // A test ends once: no other result is about its index.
  lemma FinishFits(nodes: seq<int>, s: State, w: nat, outcome: string)
    requires Inv(nodes, s) && Enabled(nodes, s, Finish(w, outcome))
    ensures s.workers[w].index !in s.outcomes
    ensures Fits(nodes, Step(nodes, s, Finish(w, outcome)))
  {
    hide Tallies, WorkerCount;
    var t := Step(nodes, s, Finish(w, outcome));
    var index := s.workers[w].index;
    assert WorkerFits(nodes, s, s.workers[w]) && Owed(s.workers[w]) == Some(index);
    forall v | 0 <= v < |t.workers| ensures WorkerFits(nodes, t, t.workers[v]) {
      assert WorkerFits(nodes, s, s.workers[v]);
      assert v < w ==> Owed(s.workers[v]).Some? ==> Owed(s.workers[v]) != Owed(s.workers[w]);
      assert v > w ==> Owed(s.workers[w]) != Owed(s.workers[v]);
    }
    forall r | 0 <= r < |t.results| ensures Genuine(nodes, t, t.results[r]) {
      assert Genuine(nodes, s, s.results[r]);
    }
  }

  lemma StepApart(nodes: seq<int>, s: State, a: Action)
    requires Inv(nodes, s) && Enabled(nodes, s, a)
    ensures Apart(Sent(nodes, Step(nodes, s, a)), Step(nodes, s, a).workers, Step(nodes, s, a).results)
  {
    hide Tallies, Fits, WorkerCount, WorkerFits, Apart;
    var sent, workers, results := Sent(nodes, s), s.workers, s.results;
    match a
    case Spawn => ApartIdle(sent, workers, results, s.main.started, Receiving);
    case HandOff(w) => ApartHandOff(sent, workers, results, w);
    case Finish(w, outcome) =>
      var index := workers[w].index;
      ApartIdle(sent, workers, results, w, Reporting(Indexed(index, Execution(nodes[index], outcome))));
    case Report(w) => ApartReport(sent, workers, results, w);
    case CloseJobs =>
    case Leave(w) => ApartIdle(sent, workers, results, w, Exited);
    case Join =>
  }

  lemma ApartIdle(sent: nat, workers: seq<Worker>, results: seq<Indexed>, w: nat, next: Worker)
    requires Apart(sent, workers, results) && w < |workers| && Owed(next) == Owed(workers[w])
    ensures Apart(sent, workers[w := next], results)
  {
  }

  lemma ApartHandOff(sent: nat, workers: seq<Worker>, results: seq<Indexed>, w: nat)
    requires Apart(sent, workers, results) && w < |workers| && Owed(workers[w]).None?
    ensures Apart(sent + 1, workers[w := Testing(sent)], results)
  {
  }

  lemma ApartReport(sent: nat, workers: seq<Worker>, results: seq<Indexed>, w: nat)
    requires Apart(sent, workers, results) && w < |workers| && workers[w].Reporting?
    ensures Apart(sent, workers[w := Receiving], results + [workers[w].result])
  {
  }

  lemma StepTallies(nodes: seq<int>, s: State, a: Action)
    requires Inv(nodes, s) && Enabled(nodes, s, a)
    ensures Tallies(nodes, Step(nodes, s, a))
  {
    hide Apart, Fits, WorkerCount, Sum;
    match a
    case Spawn =>
      SumUpdate(IsRunning, s.workers, s.main.started, Receiving);
      SumUpdate(IsOwing, s.workers, s.main.started, Receiving);
    case HandOff(w) =>
      SumUpdate(IsRunning, s.workers, w, Testing(s.main.next));
      SumUpdate(IsOwing, s.workers, w, Testing(s.main.next));
    case Finish(w, outcome) =>
      var index := s.workers[w].index;
      SumUpdate(IsRunning, s.workers, w, Reporting(Indexed(index, Execution(nodes[index], outcome))));
      SumUpdate(IsOwing, s.workers, w, Reporting(Indexed(index, Execution(nodes[index], outcome))));
    case Report(w) =>
      SumUpdate(IsRunning, s.workers, w, Receiving);
      SumUpdate(IsOwing, s.workers, w, Receiving);
    case CloseJobs =>
    case Leave(w) =>
      SumUpdate(IsRunning, s.workers, w, Exited);
      SumUpdate(IsOwing, s.workers, w, Exited);
    case Join =>
  }

  lemma StepInv(nodes: seq<int>, s: State, a: Action)
    requires Inv(nodes, s) && Enabled(nodes, s, a)
    ensures Inv(nodes, Step(nodes, s, a))
  {
    hide Enabled, Step, Phases, Fits, Apart, Tallies;
    StepPhases(nodes, s, a);
    StepFits(nodes, s, a);
    StepApart(nodes, s, a);
    StepTallies(nodes, s, a);
  }

  lemma {:induction false} RunInv(nodes: seq<int>, s: State, actions: seq<Action>)
    requires Inv(nodes, s) && IsRun(nodes, s, actions)
    ensures Inv(nodes, After(nodes, s, actions))
    decreases |actions|
  {
    if actions != [] {
      StepInv(nodes, s, actions[0]);
      hide Inv, Step, Enabled;
      RunInv(nodes, Step(nodes, s, actions[0]), actions[1..]);
    }
  }

  // ----- Liveness -----

  ghost predicate CanMove(nodes: seq<int>, s: State) {
    exists a :: Enabled(nodes, s, a)
  }

  // The result channel always has room for a finished test.
  lemma RoomToReport(nodes: seq<int>, s: State, w: nat)
    requires Inv(nodes, s) && w < |s.workers| && s.workers[w].Reporting?
    ensures |s.results| < |nodes|
  {
    SumCovers(IsOwing, s.workers, w);
  }

  lemma NeverStuck(nodes: seq<int>, s: State)
    requires Inv(nodes, s) && !s.main.Draining?
    ensures CanMove(nodes, s)
  {
    hide Apart;
    if s.main.Spawning? {
      assert Enabled(nodes, s, Spawn);
    } else if w: nat :| w < |s.workers| && s.workers[w].Testing? {
      assert WorkerFits(nodes, s, s.workers[w]);
      assert Enabled(nodes, s, Finish(w, ""));
    } else if w: nat :| w < |s.workers| && s.workers[w].Reporting? {
      RoomToReport(nodes, s, w);
      assert Enabled(nodes, s, Report(w));
    } else if s.main.Sending? && s.main.next >= |nodes| {
      assert Enabled(nodes, s, CloseJobs);
    } else if w: nat :| w < |s.workers| && s.workers[w].Receiving? {
      assert Enabled(nodes, s, if s.main.Sending? then HandOff(w) else Leave(w));
    } else {
      forall w | 0 <= w < |s.workers| ensures s.workers[w].Exited? {
        assert WorkerFits(nodes, s, s.workers[w]);
      }
      SumOfConstant(IsRunning, s.workers, 0);
      assert s.workers[0].Exited?;
      assert Enabled(nodes, s, Join);
    }
  }

  lemma NeverPanics(nodes: seq<int>, s: State, a: Action)
    requires Inv(nodes, s) && Enabled(nodes, s, a)
    ensures !Panics(s, a)
  {
    hide Apart;
    if a.Leave? {
      SumCovers(IsRunning, s.workers, a.w);
    }
  }

  function Weight(w: Worker): nat {
    match w
    case NotStarted => 2
    case Receiving => 1
    case Testing(_) => 3
    case Reporting(_) => 2
    case Exited => 0
  }

  function Measure(nodes: seq<int>, s: State): int {
    Sum(Weight, s.workers) + 4 * (|nodes| - Sent(nodes, s))
    + (match s.main case Spawning(_) => 3 case Sending(_) => 2 case Waiting => 1 case Draining => 0)
  }

  lemma MeasureDecreases(nodes: seq<int>, s: State, a: Action)
    requires Inv(nodes, s) && Enabled(nodes, s, a)
    ensures 0 <= Measure(nodes, Step(nodes, s, a)) < Measure(nodes, s)
  {
    hide Sum, Apart, Fits, Tallies, WorkerCount;
    match a
    case Spawn => SumUpdate(Weight, s.workers, s.main.started, Receiving);
    case HandOff(w) => SumUpdate(Weight, s.workers, w, Testing(s.main.next));
    case Finish(w, outcome) =>
      var index := s.workers[w].index;
      SumUpdate(Weight, s.workers, w, Reporting(Indexed(index, Execution(nodes[index], outcome))));
    case Report(w) => SumUpdate(Weight, s.workers, w, Receiving);
    case CloseJobs =>
    case Leave(w) => SumUpdate(Weight, s.workers, w, Exited);
    case Join =>
  }

  lemma {:induction false} RunsAreBounded(nodes: seq<int>, s: State, actions: seq<Action>)
    requires Inv(nodes, s) && IsRun(nodes, s, actions)
    ensures |actions| <= Measure(nodes, s)
    decreases |actions|
  {
    assert Measure(nodes, s) >= 0;
    if actions != [] {
      hide Inv, Step, Enabled, Measure;
      MeasureDecreases(nodes, s, actions[0]);
      StepInv(nodes, s, actions[0]);
      RunsAreBounded(nodes, Step(nodes, s, actions[0]), actions[1..]);
    }
  }

  // ----- Completeness -----

  // n increasing numbers below n are zero up to n.
  lemma {:induction false} IncreasingIsCount(a: seq<Indexed>, n: nat)
    requires |a| == n && forall i :: 0 <= i < n ==> a[i].index < n
    requires forall i, j :: 0 <= i < j < n ==> a[i].index < a[j].index
    ensures forall i :: 0 <= i < n ==> a[i].index == i
  {
    if n > 0 {
      var init := a[..n - 1];
      assert forall i :: 0 <= i < n - 1 ==> init[i].index < a[n - 1].index;
      IncreasingIsCount(init, n - 1);
      assert forall i :: 0 <= i < n - 1 ==> a[i].index == init[i].index == i;
      assert n > 1 ==> a[n - 2].index == n - 2 < a[n - 1].index;
    }
  }

  lemma TwiceInMultiset<T>(s: seq<T>, j: nat, k: nat)
    requires j < k < |s| && s[j] == s[k]
    ensures multiset(s)[s[j]] >= 2
  {
    assert s == s[..k] + [s[k]] + s[k + 1..];
    assert s[..k][j] == s[j];
    assert multiset(s[..k])[s[j]] >= 1;
  }

  lemma {:induction false} OnceInMultiset(s: seq<Indexed>, x: Indexed)
    requires forall j, k :: 0 <= j < k < |s| ==> s[j].index != s[k].index
    ensures multiset(s)[x] <= 1
  {
    if s != [] {
      var init, last := s[..|s| - 1], s[|s| - 1];
      OnceInMultiset(init, x);
      assert s == init + [last];
      if x == last {
        assert x !in init;
      }
    }
  }

  lemma SortedAreIncreasing(results: seq<Indexed>, ordered: seq<Indexed>)
    requires multiset(results) == multiset(ordered) && SortedBy(CompareIndex, ordered)
    requires forall j, k :: 0 <= j < k < |results| ==> results[j].index != results[k].index
    ensures |ordered| == |results|
    ensures forall i :: 0 <= i < |ordered| ==> ordered[i] in results
    ensures forall i, j :: 0 <= i < j < |ordered| ==> ordered[i].index < ordered[j].index
  {
    assert |multiset(results)| == |multiset(ordered)|;
    forall i | 0 <= i < |ordered| ensures ordered[i] in results {
      assert ordered[i] in multiset(results);
    }
    forall i, j | 0 <= i < j < |ordered| ensures ordered[i].index < ordered[j].index {
      assert CompareIndex(ordered[i], ordered[j]) <= 0;
      if ordered[i].index == ordered[j].index {
        SameIndexSame(results, ordered[i], ordered[j]);
        TwiceInMultiset(ordered, i, j);
        OnceInMultiset(results, ordered[i]);
      }
    }
  }

  lemma SameIndexSame(results: seq<Indexed>, x: Indexed, y: Indexed)
    requires forall j, k :: 0 <= j < k < |results| ==> results[j].index != results[k].index
    requires x in results && y in results && x.index == y.index
    ensures x == y
  {
  }

  lemma IndexOrderLawful()
    ensures Lawful(CompareIndex)
  {
  }

  // What collecting finds once the channel is closed: item i is node i's.
  lemma SortedResults(nodes: seq<int>, s: State)
    requires Inv(nodes, s) && s.main.Draining?
    ensures |Sort(CompareIndex, s.results)| == |nodes|
    ensures forall i :: 0 <= i < |nodes| ==>
              i in s.outcomes && Sort(CompareIndex, s.results)[i].item == Execution(nodes[i], s.outcomes[i])
  {
    hide Sort;
    var ordered := Sort(CompareIndex, s.results);
    SumOfConstant(IsOwing, s.workers, 0);
    IndexOrderLawful();
    SortSorts(CompareIndex, s.results);
    SortedAreIncreasing(s.results, ordered);
    IncreasingIsCount(ordered, |nodes|);
    forall i | 0 <= i < |nodes|
      ensures i in s.outcomes && ordered[i].item == Execution(nodes[i], s.outcomes[i])
    {
      assert Genuine(nodes, s, ordered[i]);
    }
  }

  // ----- Main results -----

  // Whatever the interleaving so far: the state is not stuck unless finished, nothing
  // can panic, at most min(n, 8) tests are in flight, and tests begin in index order,
  // each index at most once.
  lemma PoolIsSafe(nodes: seq<int>, actions: seq<Action>)
    requires IsRun(nodes, Init(nodes), actions)
    ensures var s := After(nodes, Init(nodes), actions);
            && (!s.main.Draining? ==> CanMove(nodes, s))
            && (forall a :: Enabled(nodes, s, a) ==> !Panics(s, a))
            && InFlight(s) <= |nodes| && InFlight(s) <= 8
            && |s.workers| == (if |nodes| == 0 then 1 else if |nodes| < 8 then |nodes| else 8)
            && s.begun <= Count(|nodes|)
  {
    InitInv(nodes);
    RunInv(nodes, Init(nodes), actions);
    var s := After(nodes, Init(nodes), actions);
    if !s.main.Draining? {
      NeverStuck(nodes, s);
    }
    forall a | Enabled(nodes, s, a) ensures !Panics(s, a) {
      NeverPanics(nodes, s, a);
    }
    InFlightBound(nodes, s);
  }

  lemma InFlightBound(nodes: seq<int>, s: State)
    requires Inv(nodes, s)
    ensures InFlight(s) <= |nodes| && InFlight(s) <= MAX_PARALLELISM
  {
    SumMonotone(IsTesting, IsOwing, s.workers);
    SumMonotone(IsTesting, One, s.workers);
    SumOfConstant(One, s.workers, 1);
  }

  // Every run is finite, with this bound.
  lemma PoolTerminates(nodes: seq<int>, actions: seq<Action>)
    requires IsRun(nodes, Init(nodes), actions)
    ensures |actions| <= 4 * |nodes| + 2 * WorkerCount(|nodes|) + 3
  {
    InitInv(nodes);
    RunsAreBounded(nodes, Init(nodes), actions);
    SumOfConstant(Weight, Init(nodes).workers, 2);
  }

  // A finished run began every index exactly once, and collecting answers exactly when
  // every write succeeds, with result i the one of node i.
  lemma PoolIsComplete(nodes: seq<int>, actions: seq<Action>, persists: Execution -> bool)
    requires IsRun(nodes, Init(nodes), actions)
    requires After(nodes, Init(nodes), actions).main.Draining?
    ensures var s := After(nodes, Init(nodes), actions);
            var items := Items(Sort(CompareIndex, s.results));
            && s.begun == Count(|nodes|)
            && |items| == |nodes|
            && (forall i :: 0 <= i < |nodes| ==> i in s.outcomes && items[i] == Execution(nodes[i], s.outcomes[i]))
            && (WrittenPrefix(persists, items) == items <==> forall i :: 0 <= i < |nodes| ==> persists(items[i]))
  {
    hide After, IsRun, Sort, Items, WrittenPrefix, Inv;
    InitInv(nodes);
    RunInv(nodes, Init(nodes), actions);
    var s := After(nodes, Init(nodes), actions);
    CompleteItems(nodes, s);
    WrittenAllIff(persists, Items(Sort(CompareIndex, s.results)));
  }

  lemma CompleteItems(nodes: seq<int>, s: State)
    requires Inv(nodes, s) && s.main.Draining?
    ensures s.begun == Count(|nodes|)
    ensures var items := Items(Sort(CompareIndex, s.results));
            && |items| == |nodes|
            && forall i :: 0 <= i < |nodes| ==> i in s.outcomes && items[i] == Execution(nodes[i], s.outcomes[i])
  {
    hide Sort;
    SortedResults(nodes, s);
  }

  lemma {:induction false} WrittenAllIff(persists: Execution -> bool, items: seq<Execution>)
    ensures WrittenPrefix(persists, items) <= items
    ensures WrittenPrefix(persists, items) == items <==> forall i :: 0 <= i < |items| ==> persists(items[i])
  {
    if items != [] {
      WrittenAllIff(persists, items[1..]);
      assert forall i :: 0 < i < |items| ==> items[i] == items[1..][i - 1];
    }
  }
}
