/** What failed and repeated Apply calls keep, and where they end. */
module MigrationProof {
  import opened Outcomes
  import opened Migration

  // The migrations from just above one version up to another.
  function Between(low: int, high: int): (s: seq<int>)
    ensures forall i, j :: 0 <= i < j < |s| ==> s[i] < s[j]
    ensures |s| == if low < high then high - low else 0
    ensures forall i :: 0 <= i < |s| ==> s[i] == low + 1 + i
    decreases high - low
  {
    if low >= high then [] else Between(low, high - 1) + [high]
  }

  // A version row stands for exactly the migrations up to it, in order; without a row
  // nothing was migrated.
  ghost predicate Ordered(plan: Plan, db: Database) {
    match db.version
    case Some(v) => plan.initial <= v <= plan.latest && db.applied == Between(plan.initial, v)
    case None => db.applied == []
  }

  // Behind a version row, and behind any data, the base is whole.
  ghost predicate Grounded(db: Database) {
    db.version.Some? || db.rows ==> db.base.Whole?
  }

  ghost predicate Grows(before: Database, after: Database) {
    && before.applied <= after.applied
    && (before.version.Some? ==> after.version.Some? && before.version.value <= after.version.value)
  }

  // ----- One Apply -----

  // One migration is recorded whole, or nothing changes.
  lemma MigrationStep(plan: Plan, o: Oracle, db: Database, tick: nat, next: int)
    requires Registered(plan) && next in plan.migrations && plan.initial < next <= plan.latest
    requires db.applied == Between(plan.initial, next - 1)
    ensures var r := RunMigration(o, db, tick, plan.migrations[next]);
            r.db == if r.ok then db.(applied := Between(plan.initial, next), version := Some(next)) else db
    ensures Between(plan.initial, next) == Between(plan.initial, next - 1) + [next]
  {
  }

  lemma {:induction false} UpgradeFromKeeps(plan: Plan, o: Oracle, db: Database, tick: nat, next: int)
    requires Registered(plan) && plan.initial < next <= plan.latest + 1
    requires db.applied == Between(plan.initial, next - 1)
    requires db.version.None? || db.version == Some(next - 1)
    requires db.version.None? ==> next == plan.initial + 1
    ensures var r := UpgradeFrom(plan, o, db, tick, next);
            && (next <= plan.latest || db.version.Some? ==> Ordered(plan, r.db))
            && Grows(db, r.db)
    decreases plan.latest + 1 - next
  {
    hide Between, RunMigration;
    if next <= plan.latest && next in plan.migrations {
      var r := RunMigration(o, db, tick, plan.migrations[next]);
      MigrationStep(plan, o, db, tick, next);
      if r.ok {
        UpgradeFromKeeps(plan, o, r.db, r.tick, next + 1);
      }
    } else {
      NothingBetween(plan.initial, plan.initial);
    }
  }

  lemma NothingBetween(low: int, high: int)
    requires low >= high
    ensures Between(low, high) == []
  {
  }

  lemma UpgradeKeeps(plan: Plan, o: Oracle, db: Database, tick: nat, version: int)
    requires Registered(plan) && Ordered(plan, db)
    requires db.version == Some(version) || (db.version.None? && version == plan.initial < plan.latest)
    ensures Ordered(plan, Upgrade(plan, o, db, tick, version).db)
    ensures Grows(db, Upgrade(plan, o, db, tick, version).db)
  {
    if version < plan.latest {
      UpgradeFromKeeps(plan, o, db, tick, version + 1);
    }
  }

  // Whatever fails: what is committed stays, in order, and the row says how far.
  lemma ApplyKeeps(plan: Plan, o: Oracle, db: Database, tick: nat)
    requires Registered(plan) && Ordered(plan, db)
    ensures Ordered(plan, Apply(plan, o, db, tick).db)
    ensures Grows(db, Apply(plan, o, db, tick).db)
  {
    hide UpgradeFrom;
    if !o.fails(tick) {
      if db.version.Some? {
        UpgradeKeeps(plan, o, db, tick + 1, db.version.value);
      } else if !o.fails(tick + 1) {
        if !db.rows {
          var f := InitializeFresh(plan, o, db, tick + 2);
          if f.ok {
            UpgradeKeeps(plan, o, f.db, f.tick, plan.initial);
          }
        } else if plan.latest != plan.initial && !o.fails(tick + 2) {
          UpgradeKeeps(plan, o, db, tick + 3, plan.initial);
        }
      }
    }
  }

  lemma {:induction false} UpgradeFromEnds(plan: Plan, o: Oracle, db: Database, tick: nat, next: int)
    requires Registered(plan) && UpgradeFrom(plan, o, db, tick, next).ok && next <= plan.latest
    ensures UpgradeFrom(plan, o, db, tick, next).db.version == Some(plan.latest)
    decreases plan.latest + 1 - next
  {
    if next < plan.latest {
      var r := RunMigration(o, db, tick, plan.migrations[next]);
      UpgradeFromEnds(plan, o, r.db, r.tick, next + 1);
    }
  }

  // A successful Apply ends at the latest version, from any database at all.
  lemma SuccessMeansLatest(plan: Plan, o: Oracle, db: Database, tick: nat)
    requires Registered(plan) && Apply(plan, o, db, tick).ok
    ensures Apply(plan, o, db, tick).db.version == Some(plan.latest)
  {
    hide UpgradeFrom;
    if db.version.Some? {
      if db.version.value < plan.latest {
        UpgradeFromEnds(plan, o, db, tick + 1, db.version.value + 1);
      }
    } else if plan.initial < plan.latest {
      if db.rows {
        UpgradeFromEnds(plan, o, db, tick + 3, plan.initial + 1);
      } else {
        var f := InitializeFresh(plan, o, db, tick + 2);
        UpgradeFromEnds(plan, o, f.db, f.tick, plan.initial + 1);
      }
    }
  }

  ghost predicate NoMoreFailures(o: Oracle, tick: nat) {
    forall t :: t >= tick ==> !o.fails(t)
  }

  lemma {:induction false} UpgradeFromSucceeds(plan: Plan, o: Oracle, db: Database, tick: nat, next: int)
    requires NoMoreFailures(o, tick) && forall v :: next <= v <= plan.latest ==> v in plan.migrations
    ensures UpgradeFrom(plan, o, db, tick, next).ok
    decreases plan.latest + 1 - next
  {
    if next <= plan.latest {
      var r := RunMigration(o, db, tick, plan.migrations[next]);
      UpgradeFromSucceeds(plan, o, r.db, r.tick, next + 1);
    }
  }

  // Once nothing fails any more, and a migration is registered for every target, the
  // next Apply succeeds.
  lemma ResumeSucceeds(plan: Plan, o: Oracle, db: Database, tick: nat)
    requires Registered(plan) && Ordered(plan, db) && NoMoreFailures(o, tick)
    requires forall v :: plan.initial < v <= plan.latest ==> v in plan.migrations
    ensures Apply(plan, o, db, tick).ok
  {
    hide UpgradeFrom;
    if db.version.Some? {
      UpgradeFromSucceeds(plan, o, db, tick + 1, db.version.value + 1);
    } else if db.rows {
      UpgradeFromSucceeds(plan, o, db, tick + 3, plan.initial + 1);
    } else {
      var f := InitializeFresh(plan, o, db, tick + 2);
      UpgradeFromSucceeds(plan, o, f.db, f.tick, plan.initial + 1);
    }
  }

  // ----- The base under it -----

  // One Apply reaches the initializer on an incomplete base, and it fails and leaves rows.
  predicate DirtyFailure(o: Oracle, db: Database, tick: nat) {
    && db.version.None? && !db.rows && !db.base.Whole?
    && !o.fails(tick) && !o.fails(tick + 1)
    && o.fails(tick + 2) && o.leavesRows(tick + 2)
  }

  lemma {:induction false} UpgradeFromKeepsBase(plan: Plan, o: Oracle, db: Database, tick: nat, next: int)
    ensures UpgradeFrom(plan, o, db, tick, next).db.base == db.base
    ensures UpgradeFrom(plan, o, db, tick, next).db.rows == db.rows
    ensures db.version.Some? ==> UpgradeFrom(plan, o, db, tick, next).db.version.Some?
    decreases plan.latest + 1 - next
  {
    if next <= plan.latest && next in plan.migrations {
      var r := RunMigration(o, db, tick, plan.migrations[next]);
      UpgradeFromKeepsBase(plan, o, r.db, r.tick, next + 1);
    }
  }

  lemma UpgradeKeepsBase(plan: Plan, o: Oracle, db: Database, tick: nat, version: int)
    ensures var r := Upgrade(plan, o, db, tick, version);
            r.db.base == db.base && r.db.rows == db.rows && (db.version.Some? ==> r.db.version.Some?)
  {
    hide UpgradeFrom;
    if version < plan.latest {
      UpgradeFromKeepsBase(plan, o, db, tick, version + 1);
    }
  }

  // Exactly such a failure takes the ground away.
  lemma GroundedIff(plan: Plan, o: Oracle, db: Database, tick: nat)
    requires Grounded(db)
    ensures Grounded(Apply(plan, o, db, tick).db) <==> !DirtyFailure(o, db, tick)
  {
    hide Upgrade;
    if !o.fails(tick) {
      if db.version.Some? {
        UpgradeKeepsBase(plan, o, db, tick + 1, db.version.value);
      } else if !o.fails(tick + 1) {
        if !db.rows {
          var f := InitializeFresh(plan, o, db, tick + 2);
          UpgradeKeepsBase(plan, o, f.db, f.tick, plan.initial);
        } else {
          UpgradeKeepsBase(plan, o, db, tick + 3, plan.initial);
        }
      }
    }
  }

  // Then no Apply builds the base any more.
  lemma UngroundedStays(plan: Plan, o: Oracle, db: Database, tick: nat)
    requires !Grounded(db)
    ensures var r := Apply(plan, o, db, tick);
            !Grounded(r.db) && r.db.base == db.base && r.db.rows == db.rows
  {
    hide Upgrade;
    if db.version.Some? {
      UpgradeKeepsBase(plan, o, db, tick + 1, db.version.value);
    } else {
      UpgradeKeepsBase(plan, o, db, tick + 3, plan.initial);
    }
  }

  // ----- Any number of Apply calls -----

  function Applies(plan: Plan, o: Oracle, db: Database, tick: nat, n: nat): (Database, nat) {
    if n == 0 then (db, tick)
    else
      var (d, t) := Applies(plan, o, db, tick, n - 1);
      var r := Apply(plan, o, d, t);
      (r.db, r.tick)
  }

  // Through any number of failed and repeated calls, whatever fails: a version row stands
  // for exactly the migrations up to it, in order; what is committed stays and is never
  // committed again.
  lemma {:induction false} MigrationsResume(plan: Plan, o: Oracle, db: Database, tick: nat, m: nat, n: nat)
    requires Registered(plan) && Ordered(plan, db) && m <= n
    ensures Ordered(plan, Applies(plan, o, db, tick, n).0)
    ensures Grows(Applies(plan, o, db, tick, m).0, Applies(plan, o, db, tick, n).0)
    ensures var applied := Applies(plan, o, db, tick, n).0.applied;
            forall i, j :: 0 <= i < j < |applied| ==> applied[i] < applied[j]
  {
    if n > 0 {
      var (d, t) := Applies(plan, o, db, tick, n - 1);
      MigrationsResume(plan, o, db, tick, if m == n then m - 1 else m, n - 1);
      ApplyKeeps(plan, o, d, t);
    }
    hide Apply;
  }

  // The base is whole under every version row and all data, through any number of calls,
  // exactly when none of them was a dirty failure.
  lemma {:induction false} BaseStaysWholeIff(plan: Plan, o: Oracle, db: Database, tick: nat, n: nat)
    requires Grounded(db)
    ensures Grounded(Applies(plan, o, db, tick, n).0) <==>
              forall k: nat :: k < n ==>
                !DirtyFailure(o, Applies(plan, o, db, tick, k).0, Applies(plan, o, db, tick, k).1)
  {
    hide Apply, DirtyFailure, Grounded;
    if n > 0 {
      var (d, t) := Applies(plan, o, db, tick, n - 1);
      BaseStaysWholeIff(plan, o, db, tick, n - 1);
      if Grounded(d) {
        GroundedIff(plan, o, d, t);
      } else {
        UngroundedStays(plan, o, d, t);
      }
    }
  }

  // From an incomplete base under data no number of calls completes it, and a successful
  // one records the latest version on top.
  lemma {:induction false} TaintedForGood(plan: Plan, o: Oracle, db: Database, tick: nat, n: nat)
    requires Registered(plan) && db.rows && !db.base.Whole?
    ensures var (d, t) := Applies(plan, o, db, tick, n);
            && d.rows && d.base == db.base
            && (Apply(plan, o, d, t).ok ==> Apply(plan, o, d, t).db.version == Some(plan.latest))
  {
    var (d, t) := Applies(plan, o, db, tick, n);
    if n > 0 {
      var (before, t') := Applies(plan, o, db, tick, n - 1);
      TaintedForGood(plan, o, db, tick, n - 1);
      UngroundedStays(plan, o, before, t');
    }
    if Apply(plan, o, d, t).ok {
      SuccessMeansLatest(plan, o, d, t);
    }
    hide Apply;
  }

  // ----- An older application in between -----

  // It lowers a version row above its own latest to its latest: the row then no longer
  // covers what was applied.
  lemma DowngradeForgets(plan: Plan, o: Oracle, db: Database, tick: nat, v: int)
    requires Registered(plan) && plan.latest < v && db.version == Some(v) && db.applied == Between(plan.initial, v)
    ensures var r := Apply(plan, o, db, tick);
            && r.db.applied == db.applied
            && (r.ok ==> r.db.version == Some(plan.latest) && !Ordered(plan, r.db))
  {
  }

  lemma {:induction false} BetweenCons(low: int, high: int)
    requires low < high
    ensures Between(low, high) == [low + 1] + Between(low + 1, high)
  {
    var a, b := Between(low, high), [low + 1] + Between(low + 1, high);
    assert forall i :: 0 <= i < |a| ==> a[i] == b[i];
  }

  lemma CommittedAppends(o: Oracle, db: Database, tick: nat, m: Step)
    ensures RunMigration(o, db, tick, m).ok ==> RunMigration(o, db, tick, m).db.applied == db.applied + [m.toVersion]
  {
  }

  lemma {:induction false} UpgradeFromAppends(plan: Plan, o: Oracle, db: Database, tick: nat, next: int)
    requires Registered(plan) && UpgradeFrom(plan, o, db, tick, next).ok
    ensures UpgradeFrom(plan, o, db, tick, next).db.applied == db.applied + Between(next - 1, plan.latest)
    decreases plan.latest + 1 - next
  {
    hide Between, RunMigration;
    if next <= plan.latest {
      var r := RunMigration(o, db, tick, plan.migrations[next]);
      CommittedAppends(o, db, tick, plan.migrations[next]);
      UpgradeFromAppends(plan, o, r.db, r.tick, next + 1);
      BetweenCons(next - 1, plan.latest);
      assert (db.applied + [next]) + Between(next, plan.latest) == db.applied + ([next] + Between(next, plan.latest));
    } else {
      NothingBetween(next - 1, plan.latest);
      assert db.applied + [] == db.applied;
    }
  }

  // Back under the newer application, the next success commits again every migration
  // above the older one's latest.
  lemma DowngradeRepeats(older: Plan, newer: Plan, o: Oracle, db: Database, tick: nat, v: int, p: Oracle, later: nat)
    requires Registered(older) && Registered(newer) && older.initial == newer.initial
    requires older.latest < v <= newer.latest && db.version == Some(v) && db.applied == Between(older.initial, v)
    requires Apply(older, o, db, tick).ok
    requires Apply(newer, p, Apply(older, o, db, tick).db, later).ok
    ensures var applied := Apply(newer, p, Apply(older, o, db, tick).db, later).db.applied;
            && applied == Between(older.initial, v) + Between(older.latest, newer.latest)
            && forall u :: older.latest < u <= v ==> multiset(applied)[u] >= 2
  {
    DowngradeForgets(older, o, db, tick, v);
    var d := Apply(older, o, db, tick).db;
    hide Apply;
    UpgradesAgain(older, newer, p, d, later);
    var a, b := Between(older.initial, v), Between(older.latest, newer.latest);
    forall u | older.latest < u <= v ensures multiset(a + b)[u] >= 2 {
      assert a[u - older.initial - 1] == u && b[u - older.latest - 1] == u;
      assert u in multiset(a) && u in multiset(b);
    }
  }

  lemma UpgradesAgain(older: Plan, newer: Plan, p: Oracle, d: Database, later: nat)
    requires Registered(newer) && older.latest < newer.latest && d.version == Some(older.latest)
    requires Apply(newer, p, d, later).ok
    ensures Apply(newer, p, d, later).db.applied == d.applied + Between(older.latest, newer.latest)
  {
    hide UpgradeFrom;
    UpgradeFromAppends(newer, p, d, later + 1, older.latest + 1);
  }
}
