/** Incremental history equals one-shot aggregation, under any interleaving of saves. */
module HistoryProof {
  import opened JsMaps
  import opened History
  import opened HistoryKeys

  // ----- One key at a time -----

  /** The totals under a key, nothing when there is no row. */
  function TotalOf(rows: Rows, key: string): Totals {
    match Get(rows, key) case Some(t) => t case None => NOTHING
  }

  /** One connection counted under a key. */
  function Counted(isIp: string -> bool, t: HistoryType, c: Connection, key: string): Totals {
    if IsKey(isIp, t, c, key) then Totals(c.download, c.upload, 1) else NOTHING
  }

  /** The totals of the connections with a key. */
  function SumOf(isIp: string -> bool, t: HistoryType, connections: seq<Connection>, key: string): Totals {
    if connections == [] then NOTHING
    else Plus(Counted(isIp, t, connections[0], key), SumOf(isIp, t, connections[1..], key))
  }

  function SumOfRows(rows: Rows, key: string): Totals {
    if rows == [] then NOTHING
    else Plus(if rows[0].0 == key then rows[0].1 else NOTHING, SumOfRows(rows[1..], key))
  }

  lemma PlusLaws(a: Totals, b: Totals, c: Totals)
    ensures Plus(Plus(a, b), c) == Plus(a, Plus(b, c))
    ensures Plus(a, NOTHING) == a
  {
  }

  lemma PlusCancels(a: Totals, b: Totals, c: Totals, d: Totals, x: Totals)
    requires Plus(a, Plus(b, x)) == Plus(Plus(c, x), d)
    ensures Plus(a, b) == Plus(c, d)
  {
  }

  lemma AbsorbTotal(rows: Rows, key: string, t: Totals, other: string)
    ensures TotalOf(Absorb(rows, key, t), other) == Plus(TotalOf(rows, other), if key == other then t else NOTHING)
  {
    var value := match Get(rows, key) case Some(before) => Plus(before, t) case None => t;
    GetPut(rows, key, value, other);
  }

  lemma AbsorbUnique(rows: Rows, key: string, t: Totals)
    requires UniqueKeys(rows)
    ensures UniqueKeys(Absorb(rows, key, t))
  {
    PutUnique(rows, key, match Get(rows, key) case Some(before) => Plus(before, t) case None => t);
  }

  lemma {:induction false} AbsorbAllTotals(rows: Rows, more: Rows, key: string)
    requires UniqueKeys(rows)
    ensures UniqueKeys(AbsorbAll(rows, more))
    ensures TotalOf(AbsorbAll(rows, more), key) == Plus(TotalOf(rows, key), SumOfRows(more, key))
    decreases |more|
  {
    hide Absorb, TotalOf, UniqueKeys, Plus;
    PlusLaws(TotalOf(rows, key), NOTHING, NOTHING);
    if more != [] {
      PlusLaws(TotalOf(rows, key), if more[0].0 == key then more[0].1 else NOTHING, SumOfRows(more[1..], key));
      AbsorbTotal(rows, more[0].0, more[0].1, key);
      AbsorbUnique(rows, more[0].0, more[0].1);
      AbsorbAllTotals(Absorb(rows, more[0].0, more[0].1), more[1..], key);
    }
  }

  lemma {:induction false} SinglesSum(isIp: string -> bool, t: HistoryType, connections: seq<Connection>, key: string)
    ensures SumOfRows(Singles(isIp, t, connections), key) == SumOf(isIp, t, connections, key)
  {
    hide IsKey, KeyOf;
    if connections != [] {
      KeyIs(isIp, t, connections[0], key);
      SinglesSum(isIp, t, connections[1..], key);
      assert Singles(isIp, t, connections)[1..] == Singles(isIp, t, connections[1..]);
    }
  }

  // Aggregation reports, per key, the totals of the connections with that key, once.
  lemma AggregateTotals(isIp: string -> bool, t: HistoryType, connections: seq<Connection>, key: string)
    ensures UniqueKeys(Aggregate(isIp, t, connections))
    ensures TotalOf(Aggregate(isIp, t, connections), key) == SumOf(isIp, t, connections, key)
  {
    AbsorbAllTotals([], Singles(isIp, t, connections), key);
    SinglesSum(isIp, t, connections, key);
  }

  // ----- Merging as an ordered list -----

  lemma {:induction false} AbsorbAllAppend(rows: Rows, a: Rows, b: Rows)
    ensures AbsorbAll(rows, a + b) == AbsorbAll(AbsorbAll(rows, a), b)
    decreases |a|
  {
    if a == [] {
      assert a + b == b;
    } else {
      assert (a + b)[1..] == a[1..] + b;
      AbsorbAllAppend(Absorb(rows, a[0].0, a[0].1), a[1..], b);
    }
  }

  // Recursive reading of Absorb.
  lemma AbsorbUnfold(rows: Rows, key: string, t: Totals)
    ensures Absorb(rows, key, t) ==
              if rows == [] then [(key, t)]
              else if rows[0].0 == key then [(key, Plus(rows[0].1, t))] + rows[1..]
              else [rows[0]] + Absorb(rows[1..], key, t)
  {
  }

  lemma {:induction false} AbsorbTwice(rows: Rows, key: string, s: Totals, t: Totals)
    ensures Absorb(Absorb(rows, key, s), key, t) == Absorb(rows, key, Plus(s, t))
  {
    AbsorbUnfold(rows, key, s);
    AbsorbUnfold(rows, key, Plus(s, t));
    AbsorbUnfold(Absorb(rows, key, s), key, t);
    hide Absorb;
    if rows != [] && rows[0].0 != key {
      AbsorbTwice(rows[1..], key, s, t);
      assert Absorb(rows, key, s)[1..] == Absorb(rows[1..], key, s);
    } else if rows != [] {
      assert Absorb(rows, key, s)[1..] == rows[1..];
    }
  }

  // Adding to an existing row commutes with adding another key's row.
  lemma {:induction false} AbsorbCommutes(rows: Rows, key: string, t: Totals, other: string, u: Totals)
    requires Get(rows, key).Some? && key != other
    ensures Absorb(Absorb(rows, key, t), other, u) == Absorb(Absorb(rows, other, u), key, t)
  {
    AbsorbUnfold(rows, key, t);
    AbsorbUnfold(rows, other, u);
    AbsorbUnfold(Absorb(rows, key, t), other, u);
    AbsorbUnfold(Absorb(rows, other, u), key, t);
    hide Absorb;
    if rows[0].0 == key {
      assert Absorb(rows, key, t)[1..] == rows[1..];
      assert Absorb(rows, other, u)[1..] == Absorb(rows[1..], other, u);
    } else if rows[0].0 == other {
      assert Absorb(rows, key, t)[1..] == Absorb(rows[1..], key, t);
      assert Absorb(rows, other, u)[1..] == rows[1..];
    } else {
      AbsorbCommutes(rows[1..], key, t, other, u);
      assert Absorb(rows, key, t)[1..] == Absorb(rows[1..], key, t);
      assert Absorb(rows, other, u)[1..] == Absorb(rows[1..], other, u);
    }
  }

  lemma {:induction false} AbsorbPast(rows: Rows, key: string, t: Totals, more: Rows)
    requires Get(rows, key).Some? && Get(more, key).None?
    ensures AbsorbAll(Absorb(rows, key, t), more) == Absorb(AbsorbAll(rows, more), key, t)
    decreases |more|
  {
    if more != [] {
      var (other, u) := more[0];
      AbsorbCommutes(rows, key, t, other, u);
      GetPut(rows, other, match Get(rows, other) case Some(before) => Plus(before, u) case None => u, key);
      AbsorbPast(Absorb(rows, other, u), key, t, more[1..]);
    }
  }

  lemma AbsorbPresent(rows: Rows, key: string, t: Totals)
    ensures Get(Absorb(rows, key, t), key).Some?
  {
    GetPut(rows, key, match Get(rows, key) case Some(before) => Plus(before, t) case None => t, key);
  }

  // Absorbing a list that first absorbed a row is absorbing the list, then the row.
  lemma {:induction false} AbsorbLate(rows: Rows, zs: Rows, key: string, t: Totals)
    requires UniqueKeys(zs)
    ensures AbsorbAll(rows, Absorb(zs, key, t)) == Absorb(AbsorbAll(rows, zs), key, t)
    decreases |zs|
  {
    AbsorbUnfold(zs, key, t);
    if zs == [] {
      assert Absorb(zs, key, t)[1..] == [];
    } else {
      var (k, z) := zs[0];
      if k == key {
        assert Absorb(zs, key, t)[1..] == zs[1..];
        AbsorbTwice(rows, key, z, t);
        AbsorbPresent(rows, key, z);
        AbsorbPast(Absorb(rows, key, z), key, t, zs[1..]);
      } else {
        assert Absorb(zs, key, t)[1..] == Absorb(zs[1..], key, t);
        AbsorbLate(Absorb(rows, k, z), zs[1..], key, t);
      }
    }
  }

  // Grouping first makes no difference.
  lemma {:induction false} AbsorbGrouped(rows: Rows, groups: Rows, more: Rows)
    requires UniqueKeys(groups)
    ensures AbsorbAll(rows, AbsorbAll(groups, more)) == AbsorbAll(AbsorbAll(rows, groups), more)
    decreases |more|
  {
    if more != [] {
      AbsorbLate(rows, groups, more[0].0, more[0].1);
      AbsorbUnique(groups, more[0].0, more[0].1);
      AbsorbGrouped(rows, Absorb(groups, more[0].0, more[0].1), more[1..]);
    }
  }

  lemma {:induction false} PutAllUnique(rows: Rows, more: Rows)
    requires UniqueKeys(rows) && UniqueKeys(rows + more)
    ensures PutAll(rows, more) == rows + more
    decreases |more|
  {
    if more == [] {
      assert rows + more == rows;
    } else {
      assert rows + more == rows + ([more[0]] + more[1..]);
      UniqueBefore(rows, more[0], more[1..]);
      PutUnique(rows, more[0].0, more[0].1);
      assert (rows + [more[0]]) + more[1..] == rows + more;
      hide Put, UniqueKeys;
      PutAllUnique(rows + [more[0]], more[1..]);
    }
  }

  lemma MergeIsAbsorb(historical: Rows, newData: Rows)
    requires UniqueKeys(historical)
    ensures Merge(historical, newData) == AbsorbAll(historical, newData)
  {
    assert [] + historical == historical;
    PutAllUnique([], historical);
  }

  lemma {:induction false} SinglesAppend(isIp: string -> bool, t: HistoryType, xs: seq<Connection>, ys: seq<Connection>)
    ensures Singles(isIp, t, xs + ys) == Singles(isIp, t, xs) + Singles(isIp, t, ys)
  {
    if xs == [] {
      assert xs + ys == ys;
    } else {
      assert (xs + ys)[1..] == xs[1..] + ys;
      SinglesAppend(isIp, t, xs[1..], ys);
    }
  }

  // Merging two aggregates is aggregating the concatenation: same rows, same order.
  lemma IncrementalEqualsOneShot(isIp: string -> bool, t: HistoryType, xs: seq<Connection>, ys: seq<Connection>)
    ensures Merge(Aggregate(isIp, t, xs), Aggregate(isIp, t, ys)) == Aggregate(isIp, t, xs + ys)
    ensures UniqueKeys(Aggregate(isIp, t, xs + ys))
  {
    AggregateTotals(isIp, t, xs, "");
    AggregateTotals(isIp, t, xs + ys, "");
    MergeIsAbsorb(Aggregate(isIp, t, xs), Aggregate(isIp, t, ys));
    assert UniqueKeys<Totals>([]);
    AbsorbGrouped(Aggregate(isIp, t, xs), [], Singles(isIp, t, ys));
    SinglesAppend(isIp, t, xs, ys);
    AbsorbAllAppend([], Singles(isIp, t, xs), Singles(isIp, t, ys));
  }

  // ----- Any interleaving of saves -----

  function TypeIndex(t: HistoryType): (k: nat)
    ensures k < |ALL_TYPES| && ALL_TYPES[k] == t
  {
    match t case SourceIP => 0 case Destination => 1 case Process => 2 case Outbound => 3
  }

  /** What the saves have contributed to a type so far. */
  function Contributed(isIp: string -> bool, saves: seq<Save>, t: HistoryType, key: string): Totals {
    if saves == [] then NOTHING
    else
      var last := saves[|saves| - 1];
      Plus(Contributed(isIp, saves[..|saves| - 1], t, key),
           if last.saved > TypeIndex(t) then SumOf(isIp, t, last.batch, key) else NOTHING)
  }

  ghost predicate IsSchedule(isIp: string -> bool, s: Shared, schedule: seq<nat>)
    decreases |schedule|
  {
    schedule != [] ==> CanAdvance(s, schedule[0]) && IsSchedule(isIp, Advance(isIp, s, schedule[0]), schedule[1..])
  }

  ghost function After(isIp: string -> bool, s: Shared, schedule: seq<nat>): Shared
    requires IsSchedule(isIp, s, schedule)
    decreases |schedule|
  {
    if schedule == [] then s else After(isIp, Advance(isIp, s, schedule[0]), schedule[1..])
  }

  ghost predicate Ready(s: Shared) {
    Complete(s) && forall t :: t in s.data ==> UniqueKeys(s.data[t])
  }

  function Progressed(saves: seq<Save>, i: nat): seq<Save>
    requires i < |saves|
  {
    saves[i := saves[i].(saved := saves[i].saved + 1)]
  }

  lemma {:induction false} ContributedStep(isIp: string -> bool, saves: seq<Save>, i: nat, t: HistoryType, key: string)
    requires i < |saves|
    ensures Contributed(isIp, Progressed(saves, i), t, key)
         == Plus(Contributed(isIp, saves, t, key),
                 if saves[i].saved == TypeIndex(t) then SumOf(isIp, t, saves[i].batch, key) else NOTHING)
    decreases |saves|
  {
    hide SumOf, TypeIndex;
    var last := |saves| - 1;
    if i < last {
      ContributedStep(isIp, saves[..last], i, t, key);
      assert Progressed(saves, i)[..last] == Progressed(saves[..last], i);
    } else {
      assert Progressed(saves, i)[..last] == saves[..last];
    }
  }

  lemma AdvanceTotals(isIp: string -> bool, s: Shared, i: nat, t: HistoryType, key: string)
    requires Ready(s) && CanAdvance(s, i)
    ensures Ready(Advance(isIp, s, i))
    ensures TotalOf(Advance(isIp, s, i).data[t], key)
         == Plus(TotalOf(s.data[t], key),
                 if s.saves[i].saved == TypeIndex(t) then SumOf(isIp, t, s.saves[i].batch, key) else NOTHING)
  {
    hide TotalOf, SumOf, SumOfRows, UniqueKeys, Aggregate, Merge, AbsorbAll;
    var u := ALL_TYPES[s.saves[i].saved];
    assert t == ALL_TYPES[TypeIndex(t)];
    assert u == t <==> s.saves[i].saved == TypeIndex(t);
    var added := Aggregate(isIp, u, s.saves[i].batch);
    AggregateTotals(isIp, u, s.saves[i].batch, key);
    MergeIsAbsorb(s.data[u], added);
    AbsorbAllTotals(s.data[u], added, key);
    UniqueSum(added, key);
  }

  lemma AdvanceSaves(isIp: string -> bool, s: Shared, i: nat)
    requires CanAdvance(s, i)
    ensures Advance(isIp, s, i).saves == Progressed(s.saves, i)
  {
  }

  lemma {:induction false} UniqueSum(rows: Rows, key: string)
    requires UniqueKeys(rows)
    ensures SumOfRows(rows, key) == TotalOf(rows, key)
  {
    if rows != [] {
      UniqueSum(rows[1..], key);
    }
  }

  ghost predicate SameBatches(s: Shared, end: Shared) {
    && |end.saves| == |s.saves|
    && forall i :: 0 <= i < |s.saves| ==> end.saves[i].batch == s.saves[i].batch
  }

  // What a type holds under a key grows by what the saves contribute.
  ghost predicate Conserved(isIp: string -> bool, s: Shared, end: Shared, t: HistoryType, key: string) {
    && Ready(s) && Ready(end) && t in s.data && t in end.data
    && Plus(TotalOf(end.data[t], key), Contributed(isIp, s.saves, t, key))
       == Plus(TotalOf(s.data[t], key), Contributed(isIp, end.saves, t, key))
  }

  lemma ConservedFrom(isIp: string -> bool, s: Shared, i: nat, end: Shared, t: HistoryType, key: string)
    requires Ready(s) && CanAdvance(s, i)
    requires Conserved(isIp, Advance(isIp, s, i), end, t, key) && SameBatches(Advance(isIp, s, i), end)
    ensures Conserved(isIp, s, end, t, key) && SameBatches(s, end)
  {
    hide Contributed, SumOf, TotalOf, Advance, Plus, UniqueKeys;
    assert t == ALL_TYPES[TypeIndex(t)];
    assert t in s.data;
    AdvanceTotals(isIp, s, i, t, key);
    AdvanceSaves(isIp, s, i);
    ContributedStep(isIp, s.saves, i, t, key);
    PlusCancels(TotalOf(end.data[t], key), Contributed(isIp, s.saves, t, key),
                TotalOf(s.data[t], key), Contributed(isIp, end.saves, t, key),
                if s.saves[i].saved == TypeIndex(t) then SumOf(isIp, t, s.saves[i].batch, key) else NOTHING);
  }

  // At every moment of every interleaving each type holds, per key, what was there
  // before plus the totals of every batch that has passed that type.
  lemma {:induction false} SavesConserve(isIp: string -> bool, s: Shared, schedule: seq<nat>, t: HistoryType,
                                         key: string)
    requires Ready(s) && IsSchedule(isIp, s, schedule)
    ensures Conserved(isIp, s, After(isIp, s, schedule), t, key)
    ensures SameBatches(s, After(isIp, s, schedule))
    decreases |schedule|
  {
    assert t == ALL_TYPES[TypeIndex(t)];
    if schedule == [] {
      assert Conserved(isIp, s, s, t, key);
    } else {
      AdvanceTotals(isIp, s, schedule[0], t, key);
      SavesConserve(isIp, Advance(isIp, s, schedule[0]), schedule[1..], t, key);
      ConservedFrom(isIp, s, schedule[0], After(isIp, s, schedule), t, key);
    }
    hide Conserved, SameBatches, Advance, Ready;
  }

  function SumOfBatches(isIp: string -> bool, t: HistoryType, batches: seq<seq<Connection>>, key: string): Totals {
    if batches == [] then NOTHING
    else Plus(SumOfBatches(isIp, t, batches[..|batches| - 1], key), SumOf(isIp, t, batches[|batches| - 1], key))
  }

  lemma {:induction false} FinishedContributes(isIp: string -> bool, saves: seq<Save>, batches: seq<seq<Connection>>,
                                               t: HistoryType, key: string)
    requires |saves| == |batches|
    requires forall i :: 0 <= i < |saves| ==> saves[i].batch == batches[i] && saves[i].saved >= |ALL_TYPES|
    ensures Contributed(isIp, saves, t, key) == SumOfBatches(isIp, t, batches, key)
  {
    if saves != [] {
      FinishedContributes(isIp, saves[..|saves| - 1], batches[..|batches| - 1], t, key);
    }
  }

  lemma {:induction false} StartedContributes(isIp: string -> bool, batches: seq<seq<Connection>>, t: HistoryType,
                                              key: string)
    ensures Contributed(isIp, Started(batches), t, key) == NOTHING
    decreases |batches|
  {
    hide SumOf, Contributed, Started, TypeIndex, Plus;
    if batches == [] {
      NothingContributed(isIp, t, key);
      assert Started(batches) == [];
    } else {
      var last := |batches| - 1;
      StartedContributes(isIp, batches[..last], t, key);
      StartedLast(batches);
      ContributedLast(isIp, Started(batches), t, key);
      EmptyContributes(isIp, t, key);
    }
  }

  lemma NothingContributed(isIp: string -> bool, t: HistoryType, key: string)
    ensures Contributed(isIp, [], t, key) == NOTHING
  {
  }

  lemma StartedLast(batches: seq<seq<Connection>>)
    requires batches != []
    ensures var s, last := Started(batches), |batches| - 1;
            && s[..last] == Started(batches[..last])
            && s[last].batch == batches[last] && (batches[last] != [] ==> s[last].saved == 0)
  {
  }

  lemma ContributedLast(isIp: string -> bool, saves: seq<Save>, t: HistoryType, key: string)
    requires saves != []
    ensures var last := saves[|saves| - 1];
            Contributed(isIp, saves, t, key) ==
              Plus(Contributed(isIp, saves[..|saves| - 1], t, key),
                   if last.saved > TypeIndex(t) then SumOf(isIp, t, last.batch, key) else NOTHING)
  {
    hide SumOf, TypeIndex, Plus;
  }

  lemma EmptyContributes(isIp: string -> bool, t: HistoryType, key: string)
    ensures SumOf(isIp, t, [], key) == NOTHING && Plus(NOTHING, NOTHING) == NOTHING
  {
  }

  // Once all calls are through, every batch is merged into every type, whatever the order.
  lemma AllSavesMerged(isIp: string -> bool, data: map<HistoryType, Rows>, batches: seq<seq<Connection>>,
                       schedule: seq<nat>, t: HistoryType, key: string)
    requires Ready(Shared(data, Started(batches))) && IsSchedule(isIp, Shared(data, Started(batches)), schedule)
    requires forall save :: save in After(isIp, Shared(data, Started(batches)), schedule).saves ==> save.saved >= |ALL_TYPES|
    ensures t in data && t in After(isIp, Shared(data, Started(batches)), schedule).data
    ensures TotalOf(After(isIp, Shared(data, Started(batches)), schedule).data[t], key)
         == Plus(TotalOf(data[t], key), SumOfBatches(isIp, t, batches, key))
  {
    var s := Shared(data, Started(batches));
    var end := After(isIp, s, schedule);
    SavesConserve(isIp, s, schedule, t, key);
    PlusLaws(TotalOf(end.data[t], key), NOTHING, NOTHING);
    hide After, IsSchedule, Contributed, SumOfBatches, TotalOf, Plus;
    StartedContributes(isIp, batches, t, key);
    FinishedContributes(isIp, end.saves, batches, t, key);
  }
}
