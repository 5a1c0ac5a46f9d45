/** Which steps of an Apply must have gone well for what it leaves behind. */
module MigrationSteps {
  import opened Outcomes
  import opened Migration
  import opened MigrationProof

  // n steps in a row that do not fail.
  ghost predicate Clear(o: Oracle, from: nat, n: nat) {
    forall t :: from <= t < from + n ==> !o.fails(t)
  }

  // Target u is registered, and its three steps, migrating, validating and saving the
  // version, go well from this tick on.
  ghost predicate GoesWell(plan: Plan, o: Oracle, tick: nat, u: int) {
    u in plan.migrations && Clear(o, tick, 3)
  }

  lemma MigrationIsThreeSteps(plan: Plan, o: Oracle, db: Database, tick: nat, u: int)
    requires Registered(plan) && u in plan.migrations
    ensures var r := RunMigration(o, db, tick, plan.migrations[u]);
            && (r.ok <==> Clear(o, tick, 3))
            && (r.ok ==> r == Result(db.(applied := db.applied + [u], version := Some(u)), tick + 3, true))
            && (!r.ok ==> r.db == db && tick < r.tick <= tick + 3)
  {
    assert Clear(o, tick, 3) <==> !o.fails(tick) && !o.fails(tick + 1) && !o.fails(tick + 2);
  }

  // After j migrations from the one just above a version.
  function Advanced(db: Database, from: int, j: nat): Database {
    db.(applied := db.applied + Between(from, from + j), version := if j == 0 then db.version else Some(from + j))
  }

  lemma AdvancedOnce(db: Database, from: int, j: nat)
    ensures Advanced(db.(applied := db.applied + [from + 1], version := Some(from + 1)), from + 1, j) == Advanced(db, from, j + 1)
    ensures Advanced(db, from, 0) == db
  {
    hide Between;
    NothingBetween(from, from);
    assert db.applied + [] == db.applied;
    BetweenCons(from, from + 1 + j);
    var rest := Between(from + 1, from + 1 + j);
    assert (db.applied + [from + 1]) + rest == db.applied + ([from + 1] + rest);
    NothingBetween(from + 1, from + 1);
  }

  // Migrations are committed one by one up to the first that does not go well; the loop
  // succeeds when there is none.
  lemma {:induction false} UpgradeSteps(plan: Plan, o: Oracle, db: Database, tick: nat, from: int) returns (j: nat)
    requires Registered(plan) && from <= plan.latest
    ensures from + j <= plan.latest
    ensures forall i :: 0 <= i < j ==> GoesWell(plan, o, tick + 3 * i, from + 1 + i)
    ensures from + j < plan.latest ==> !GoesWell(plan, o, tick + 3 * j, from + j + 1)
    ensures var r := UpgradeFrom(plan, o, db, tick, from + 1);
            && r.db == Advanced(db, from, j)
            && (r.ok <==> from + j == plan.latest)
            && tick + 3 * j <= r.tick
    decreases plan.latest - from
  {
    hide RunMigration, Advanced, Clear;
    AdvancedOnce(db, from, 0);
    j := 0;
    if from < plan.latest && from + 1 in plan.migrations {
      MigrationIsThreeSteps(plan, o, db, tick, from + 1);
      var r := RunMigration(o, db, tick, plan.migrations[from + 1]);
      if r.ok {
        var rest := UpgradeSteps(plan, o, r.db, r.tick, from + 1);
        AdvancedOnce(db, from, rest);
        j := rest + 1;
        forall i | 0 <= i < j ensures GoesWell(plan, o, tick + 3 * i, from + 1 + i) {
          if i > 0 {
            assert GoesWell(plan, o, r.tick + 3 * (i - 1), from + 1 + 1 + (i - 1));
          }
        }
      }
    }
  }

  // ----- One Apply -----

  // Steps before the first migration: loading the version; else also looking for data and
  // preparing the version table; else initialising, validating and saving the version.
  function Prelude(db: Database): nat {
    if db.version.Some? then 1 else if db.rows then 3 else 5
  }

  function FromVersion(plan: Plan, db: Database): int {
    match db.version case Some(v) => v case None => plan.initial
  }

  // Every step a successful Apply takes: without a migration to run the schema is validated,
  // and the version saved where none or a later one stands.
  function StepsNeeded(plan: Plan, db: Database): nat {
    var from := FromVersion(plan, db);
    Prelude(db) +
    if from < plan.latest then 3 * (plan.latest - from)
    else if from > plan.latest then 2
    else if db.version.None? && db.rows then 2
    else 1
  }

  lemma {:induction false} ClearInThrees(plan: Plan, o: Oracle, tick: nat, from: int, n: nat)
    ensures (forall i :: 0 <= i < n ==> GoesWell(plan, o, tick + 3 * i, from + 1 + i)) <==>
              Clear(o, tick, 3 * n) && forall u :: from < u <= from + n ==> u in plan.migrations
  {
    if forall i :: 0 <= i < n ==> GoesWell(plan, o, tick + 3 * i, from + 1 + i) {
      forall t | tick <= t < tick + 3 * n ensures !o.fails(t) {
        var i := (t - tick) / 3;
        assert GoesWell(plan, o, tick + 3 * i, from + 1 + i);
      }
      forall u | from < u <= from + n ensures u in plan.migrations {
        assert GoesWell(plan, o, tick + 3 * (u - from - 1), from + 1 + (u - from - 1));
      }
    }
  }

  // The migration loop as part of an Apply, which first took its prelude.
  lemma LoopOkIff(plan: Plan, o: Oracle, db: Database, tick: nat, from: int)
    requires Registered(plan) && from <= plan.latest
    ensures UpgradeFrom(plan, o, db, tick, from + 1).ok <==>
              Clear(o, tick, 3 * (plan.latest - from)) && forall u :: from < u <= plan.latest ==> u in plan.migrations
  {
    hide UpgradeFrom, Clear;
    var j := UpgradeSteps(plan, o, db, tick, from);
    ClearInThrees(plan, o, tick, from, plan.latest - from);
    if from + j < plan.latest {
      assert !GoesWell(plan, o, tick + 3 * j, from + 1 + j);
    }
  }

  /** An Apply succeeds exactly when none of the steps it needs fails and every migration it
      needs is registered. */
  lemma ApplyOkIff(plan: Plan, o: Oracle, db: Database, tick: nat)
    requires Registered(plan)
    ensures Apply(plan, o, db, tick).ok <==>
              && Clear(o, tick, StepsNeeded(plan, db))
              && forall u :: FromVersion(plan, db) < u <= plan.latest ==> u in plan.migrations
  {
    hide UpgradeFrom;
    var from, start := FromVersion(plan, db), tick + Prelude(db);
    if from < plan.latest {
      ClearSplits(o, tick, Prelude(db), 3 * (plan.latest - from));
      LoopOkIff(plan, o, db, start, from);
      if db.version.None? && !db.rows {
        LoopOkIff(plan, o, InitializeFresh(plan, o, db, tick + 2).db, start, from);
      }
    }
    PreludeIs(o, tick);
  }

  lemma ClearSplits(o: Oracle, tick: nat, a: nat, b: nat)
    ensures Clear(o, tick, a + b) <==> Clear(o, tick, a) && Clear(o, tick + a, b)
  {
  }

  lemma PreludeIs(o: Oracle, tick: nat)
    ensures Clear(o, tick, 1) <==> !o.fails(tick)
    ensures Clear(o, tick, 2) <==> !o.fails(tick) && !o.fails(tick + 1)
    ensures Clear(o, tick, 3) <==> !o.fails(tick) && !o.fails(tick + 1) && !o.fails(tick + 2)
    ensures Clear(o, tick, 5) <==>
              !o.fails(tick) && !o.fails(tick + 1) && !o.fails(tick + 2) && !o.fails(tick + 3) && !o.fails(tick + 4)
    ensures Clear(o, tick, 6) <==> Clear(o, tick, 5) && !o.fails(tick + 5)
  {
  }

  // The tables when the migration loop begins.
  function AtLoop(plan: Plan, o: Oracle, db: Database, tick: nat): Database {
    if db.version.Some? || db.rows then db else InitializeFresh(plan, o, db, tick + 2).db
  }

  // With the prelude behind it and migrations to run, an Apply is the loop.
  lemma ReachesLoop(plan: Plan, o: Oracle, db: Database, tick: nat)
    requires FromVersion(plan, db) < plan.latest && Clear(o, tick, Prelude(db))
    ensures Apply(plan, o, db, tick)
         == UpgradeFrom(plan, o, AtLoop(plan, o, db, tick), tick + Prelude(db), FromVersion(plan, db) + 1)
    ensures AtLoop(plan, o, db, tick).applied == db.applied
    ensures AtLoop(plan, o, db, tick).version == if db.version.Some? || db.rows then db.version else Some(plan.initial)
  {
    hide UpgradeFrom;
    PreludeIs(o, tick);
  }

  lemma StaysOutside(plan: Plan, o: Oracle, db: Database, tick: nat)
    requires FromVersion(plan, db) >= plan.latest || !Clear(o, tick, Prelude(db))
    requires Registered(plan)
    ensures Apply(plan, o, db, tick).db.applied == db.applied
  {
    hide UpgradeFrom;
    PreludeIs(o, tick);
  }

  /** Whatever one Apply commits, each target went well in the three steps it was given. */
  lemma ApplyCommitsChecked(plan: Plan, o: Oracle, db: Database, tick: nat)
    requires Registered(plan)
    ensures var applied := Apply(plan, o, db, tick).db.applied;
            && db.applied <= applied
            && forall i :: |db.applied| <= i < |applied| ==>
                 && applied[i] == FromVersion(plan, db) + 1 + (i - |db.applied|)
                 && GoesWell(plan, o, tick + Prelude(db) + 3 * (i - |db.applied|), applied[i])
  {
    hide Apply, UpgradeFrom, Clear, AtLoop, GoesWell;
    if FromVersion(plan, db) < plan.latest && Clear(o, tick, Prelude(db)) {
      ReachesLoop(plan, o, db, tick);
      var j := UpgradeSteps(plan, o, AtLoop(plan, o, db, tick), tick + Prelude(db), FromVersion(plan, db));
    } else {
      StaysOutside(plan, o, db, tick);
    }
  }

  /** When a needed migration is reached and fails to migrate, to validate or to save its
      version, the Apply fails and leaves everything as before that migration. */
  lemma FailedStepRollsBack(plan: Plan, o: Oracle, db: Database, tick: nat, i: nat, step: nat)
    requires Registered(plan) && FromVersion(plan, db) + i < plan.latest && step < 3
    requires Clear(o, tick, Prelude(db) + 3 * i) && o.fails(tick + Prelude(db) + 3 * i + step)
    requires forall u :: FromVersion(plan, db) < u <= FromVersion(plan, db) + i ==> u in plan.migrations
    ensures var r, from := Apply(plan, o, db, tick), FromVersion(plan, db);
            && !r.ok
            && r.db.applied == db.applied + Between(from, from + i)
            && r.db.version == if i > 0 then Some(from + i)
                               else if db.version.Some? || db.rows then db.version else Some(plan.initial)
  {
    hide Apply, UpgradeFrom, AtLoop, Between;
    var from, start := FromVersion(plan, db), tick + Prelude(db);
    ClearSplits(o, tick, Prelude(db), 3 * i);
    ReachesLoop(plan, o, db, tick);
    ClearInThrees(plan, o, start, from, i);
    var j := UpgradeSteps(plan, o, AtLoop(plan, o, db, tick), start, from);
    assert !GoesWell(plan, o, start + 3 * i, from + 1 + i);
    assert j < i ==> from + j + 1 == from + 1 + j;
  }

  // ----- Any number of calls -----

  // Call k committed entry i, and it went well in that call.
  ghost predicate CommittedIn(plan: Plan, o: Oracle, db: Database, tick: nat, k: nat, i: nat, u: int) {
    var (d, t) := Applies(plan, o, db, tick, k);
    var after := Applies(plan, o, db, tick, k + 1).0;
    && |d.applied| <= i < |after.applied| && after.applied[i] == u
    && GoesWell(plan, o, t + Prelude(d) + 3 * (i - |d.applied|), u)
  }

  /** Over any number of calls, failing anywhere, every committed target was migrated,
      validated and saved without a failure by the call that committed it. */
  lemma {:induction false} CommittedWasChecked(plan: Plan, o: Oracle, db: Database, tick: nat, n: nat, i: nat)
    requires Registered(plan) && |db.applied| <= i < |Applies(plan, o, db, tick, n).0.applied|
    ensures exists k: nat :: k < n && CommittedIn(plan, o, db, tick, k, i, Applies(plan, o, db, tick, n).0.applied[i])
    decreases n
  {
    hide Apply, GoesWell;
    if n > 0 {
      var (d, t) := Applies(plan, o, db, tick, n - 1);
      ApplyCommitsChecked(plan, o, d, t);
      var u := Applies(plan, o, db, tick, n).0.applied[i];
      if i < |d.applied| {
        CommittedWasChecked(plan, o, db, tick, n - 1, i);
        var k: nat :| k < n - 1 && CommittedIn(plan, o, db, tick, k, i, d.applied[i]);
        assert CommittedIn(plan, o, db, tick, k, i, u);
      } else {
        assert CommittedIn(plan, o, db, tick, n - 1, i, u);
      }
    }
  }
}
