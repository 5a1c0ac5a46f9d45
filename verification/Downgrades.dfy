/** Which runs of older and newer applications commit a migration twice. */
module Downgrades {
  import opened Outcomes
  import opened Sequences
  import opened Migration
  import opened MigrationProof

  // Apply calls by any applications, one after another.
  function Calls(plans: seq<Plan>, o: Oracle, db: Database, tick: nat): (Database, nat) {
    if plans == [] then (db, tick)
    else
      var (d, t) := Calls(plans[..|plans| - 1], o, db, tick);
      var r := Apply(plans[|plans| - 1], o, d, t);
      (r.db, r.tick)
  }

  // A successful Apply of an application older than the version row.
  predicate Lowers(plan: Plan, o: Oracle, db: Database, tick: nat) {
    db.version.Some? && plan.latest < db.version.value && Apply(plan, o, db, tick).ok
  }

  predicate Commits(plan: Plan, o: Oracle, db: Database, tick: nat) {
    Apply(plan, o, db, tick).db.applied != db.applied
  }

  predicate SomeLowers(plans: seq<Plan>, o: Oracle, db: Database, tick: nat) {
    plans != [] &&
    var earlier := plans[..|plans| - 1];
    var (d, t) := Calls(earlier, o, db, tick);
    SomeLowers(earlier, o, db, tick) || Lowers(plans[|plans| - 1], o, d, t)
  }

  // No call commits a migration after another has lowered the version row.
  predicate NoCommitAfterLowering(plans: seq<Plan>, o: Oracle, db: Database, tick: nat) {
    plans != [] ==>
      var earlier := plans[..|plans| - 1];
      var (d, t) := Calls(earlier, o, db, tick);
      && NoCommitAfterLowering(earlier, o, db, tick)
      && !(SomeLowers(earlier, o, db, tick) && Commits(plans[|plans| - 1], o, d, t))
  }

  // ----- What was applied, and the row below or at its end -----

  function Top(initial: int, db: Database): int {
    initial + |db.applied|
  }

  // Every migration up to some version was applied once, and the row is not beyond it.
  ghost predicate Once(initial: int, db: Database) {
    && db.applied == Between(initial, Top(initial, db))
    && match db.version
       case Some(v) => initial <= v <= Top(initial, db)
       case None => db.applied == []
  }

  predicate Lowered(initial: int, db: Database) {
    db.version.Some? && db.version.value < Top(initial, db)
  }

  lemma OnceIsDistinct(initial: int, db: Database)
    requires Once(initial, db)
    ensures Distinct(db.applied)
  {
  }

  lemma OnceIsOrdered(plan: Plan, db: Database)
    requires plan.initial <= plan.latest
    ensures Ordered(plan, db) <==>
              && Once(plan.initial, db) && !Lowered(plan.initial, db)
              && (db.version.Some? ==> db.version.value <= plan.latest)
  {
  }

  // With the row at the end of what was applied, only lowering it does harm.
  lemma FromTheTop(plan: Plan, o: Oracle, db: Database, tick: nat)
    requires Registered(plan) && Once(plan.initial, db) && !Lowered(plan.initial, db)
    ensures var r := Apply(plan, o, db, tick);
            && Once(plan.initial, r.db)
            && (Lowered(plan.initial, r.db) <==> Lowers(plan, o, db, tick))
  {
    OnceIsOrdered(plan, db);
    OnceIsOrdered(plan, Apply(plan, o, db, tick).db);
    if Ordered(plan, db) {
      ApplyKeeps(plan, o, db, tick);
    }
    hide Between, UpgradeFrom;
  }

  lemma {:induction false} UpgradeFromGrows(plan: Plan, o: Oracle, db: Database, tick: nat, next: int)
    ensures db.applied <= UpgradeFrom(plan, o, db, tick, next).db.applied
    decreases plan.latest + 1 - next
  {
    if next <= plan.latest && next in plan.migrations {
      var r := RunMigration(o, db, tick, plan.migrations[next]);
      UpgradeFromGrows(plan, o, r.db, r.tick, next + 1);
    }
  }

  lemma ApplyGrows(plan: Plan, o: Oracle, db: Database, tick: nat)
    ensures db.applied <= Apply(plan, o, db, tick).db.applied
  {
    hide UpgradeFrom;
    forall d: Database, t: nat, next: int ensures d.applied <= UpgradeFrom(plan, o, d, t, next).db.applied {
      UpgradeFromGrows(plan, o, d, t, next);
    }
  }

  lemma UpgradeFromBelow(plan: Plan, o: Oracle, db: Database, tick: nat)
    requires Registered(plan) && Once(plan.initial, db) && Lowered(plan.initial, db) && db.version.value < plan.latest
    ensures var r := UpgradeFrom(plan, o, db, tick, db.version.value + 1);
            r.db == db || !Distinct(r.db.applied)
  {
    hide Between;
    var v := db.version.value;
    if v + 1 in plan.migrations {
      var m := RunMigration(o, db, tick, plan.migrations[v + 1]);
      if m.ok {
        UpgradeFromGrows(plan, o, m.db, m.tick, v + 2);
        assert m.db.applied[v - plan.initial] == m.db.applied[|db.applied|] == v + 1;
      }
    }
  }

  // With a lowered row the first migration committed is one committed before.
  lemma FromBelow(plan: Plan, o: Oracle, db: Database, tick: nat)
    requires Registered(plan) && Once(plan.initial, db) && Lowered(plan.initial, db)
    ensures var r := Apply(plan, o, db, tick);
            if Commits(plan, o, db, tick) then !Distinct(r.db.applied)
            else Once(plan.initial, r.db) && Lowered(plan.initial, r.db)
  {
    hide Between, UpgradeFrom;
    if db.version.value < plan.latest {
      UpgradeFromBelow(plan, o, db, tick + 1);
    }
  }

  // ----- Any run -----

  lemma {:induction false} RunOnce(plans: seq<Plan>, initial: int, o: Oracle, db: Database, tick: nat)
    requires forall plan :: plan in plans ==> Registered(plan) && plan.initial == initial
    requires Once(initial, db) && !Lowered(initial, db)
    ensures var d := Calls(plans, o, db, tick).0;
            if NoCommitAfterLowering(plans, o, db, tick)
            then Once(initial, d) && (Lowered(initial, d) <==> SomeLowers(plans, o, db, tick))
            else !Distinct(d.applied)
    decreases |plans|
  {
    if plans != [] {
      var earlier, plan := plans[..|plans| - 1], plans[|plans| - 1];
      RunOnce(earlier, initial, o, db, tick);
      var (d, t) := Calls(earlier, o, db, tick);
      if !NoCommitAfterLowering(earlier, o, db, tick) {
        ApplyGrows(plan, o, d, t);
      } else if Lowered(initial, d) {
        FromBelow(plan, o, d, t);
      } else {
        FromTheTop(plan, o, d, t);
      }
    }
    hide Apply, Once;
  }

  /** Over any sequence of Apply calls by applications of any version, failing anywhere, no
      migration is committed twice exactly when no call commits one after another has
      lowered the version row. */
  lemma AppliedOnceIff(plans: seq<Plan>, initial: int, o: Oracle, db: Database, tick: nat)
    requires forall plan :: plan in plans ==> Registered(plan) && plan.initial == initial
    requires Once(initial, db) && !Lowered(initial, db)
    ensures Distinct(Calls(plans, o, db, tick).0.applied) <==> NoCommitAfterLowering(plans, o, db, tick)
  {
    RunOnce(plans, initial, o, db, tick);
    if NoCommitAfterLowering(plans, o, db, tick) {
      OnceIsDistinct(initial, Calls(plans, o, db, tick).0);
    }
  }

  // One other application in between, then success: the harm is done exactly when it was
  // older than the row and succeeded.
  lemma DowngradeHarmsIff(older: Plan, newer: Plan, o: Oracle, db: Database, tick: nat, v: int, p: Oracle, later: nat)
    requires Registered(older) && Registered(newer) && older.initial == newer.initial
    requires older.latest <= newer.latest && v <= newer.latest
    requires db.version == Some(v) && newer.initial <= v && db.applied == Between(newer.initial, v)
    requires Apply(newer, p, Apply(older, o, db, tick).db, later).ok
    ensures Distinct(Apply(newer, p, Apply(older, o, db, tick).db, later).db.applied) <==>
              !(older.latest < v && Apply(older, o, db, tick).ok)
  {
    hide Apply, Between;
    var d := Apply(older, o, db, tick).db;
    FromTheTop(older, o, db, tick);
    if Lowers(older, o, db, tick) {
      DowngradeRepeats(older, newer, o, db, tick, v, p, later);
      var applied := Apply(newer, p, d, later).db.applied;
      if Distinct(applied) {
        DistinctCounts(applied, v);
      }
    } else {
      FromTheTop(newer, p, d, later);
      OnceIsDistinct(newer.initial, Apply(newer, p, d, later).db);
    }
  }
}
