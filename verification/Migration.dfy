/**
 The schema migration scheduler (model/migrate/scheduler.go).  Any step may fail; which
 ones do is an oracle indexed by the number of steps taken so far.
 */
module Migration {
  import opened Outcomes

  // How much of the initializer's schema is there.
  datatype Base = Absent | Partial | Whole

  // rows: business tables hold data, which is what the emptiness check looks at.
  datatype Database = Database(base: Base, applied: seq<int>, rows: bool, version: Option<int>)

  datatype Oracle = Oracle(fails: nat -> bool, leavesRows: nat -> bool)

  datatype Step = Step(fromVersion: int, toVersion: int)

  datatype Plan = Plan(initial: int, latest: int, migrations: map<int, Step>)

  datatype Result = Result(db: Database, tick: nat, ok: bool)

  // ----- Single steps -----

  // A check that changes nothing.
  function Check(o: Oracle, db: Database, tick: nat): Result {
    Result(db, tick + 1, !o.fails(tick))
  }

  // Not transactional: a failure can leave part of the schema, and rows, behind.
  function Initialize(o: Oracle, db: Database, tick: nat): Result {
    var rows := db.rows || o.leavesRows(tick);
    if o.fails(tick) then Result(db.(base := if db.base.Whole? then Whole else Partial, rows := rows), tick + 1, false)
    else Result(db.(base := Whole, rows := rows), tick + 1, true)
  }

  function SaveVersion(o: Oracle, db: Database, tick: nat, version: int): Result {
    if o.fails(tick) then Result(db, tick + 1, false) else Result(db.(version := Some(version)), tick + 1, true)
  }

  // Migrate, validate and save in one transaction: all of it or nothing.
  function RunMigration(o: Oracle, db: Database, tick: nat, m: Step): Result {
    if o.fails(tick) then Result(db, tick + 1, false)
    else if o.fails(tick + 1) then Result(db, tick + 2, false)
    else if o.fails(tick + 2) then Result(db, tick + 3, false)
    else Result(db.(applied := db.applied + [m.toVersion], version := Some(m.toVersion)), tick + 3, true)
  }

  // ----- Apply -----

  function UpgradeFrom(plan: Plan, o: Oracle, db: Database, tick: nat, next: int): Result
    decreases plan.latest + 1 - next
  {
    if next > plan.latest then Result(db, tick, true)
    else if next !in plan.migrations then Result(db, tick, false)
    else
      var r := RunMigration(o, db, tick, plan.migrations[next]);
      if !r.ok then r else UpgradeFrom(plan, o, r.db, r.tick, next + 1)
  }

  function Upgrade(plan: Plan, o: Oracle, db: Database, tick: nat, version: int): Result {
    if version > plan.latest then
      var r := Check(o, db, tick);
      if !r.ok then r else SaveVersion(o, r.db, r.tick, plan.latest)
    else if version == plan.latest then Check(o, db, tick)
    else UpgradeFrom(plan, o, db, tick, version + 1)
  }

  function InitializeFresh(plan: Plan, o: Oracle, db: Database, tick: nat): Result {
    var r := Initialize(o, db, tick);
    if !r.ok then r
    else
      var v := Check(o, r.db, r.tick);
      if !v.ok then v else SaveVersion(o, v.db, v.tick, plan.initial)
  }

  function Apply(plan: Plan, o: Oracle, db: Database, tick: nat): Result {
    var load := Check(o, db, tick);
    if !load.ok then load
    else if db.version.Some? then Upgrade(plan, o, db, load.tick, db.version.value)
    else
      var empty := Check(o, db, load.tick);
      if !empty.ok then empty
      else if !db.rows then
        var f := InitializeFresh(plan, o, db, empty.tick);
        if !f.ok then f else Upgrade(plan, o, f.db, f.tick, plan.initial)
      else
        var meta := Check(o, db, empty.tick);
        if !meta.ok then meta
        else if plan.latest == plan.initial then
          var v := Check(o, db, meta.tick);
          if !v.ok then v else SaveVersion(o, db, v.tick, plan.initial)
        else Upgrade(plan, o, db, meta.tick, plan.initial)
  }

  // Registration keeps this: targets are the keys, and none is above the latest.
  ghost predicate Registered(plan: Plan) {
    && plan.initial <= plan.latest
    && forall v :: v in plan.migrations ==> plan.migrations[v].toVersion == v && v <= plan.latest
  }

  // ----- The scheduler object -----

  class Store {
    const oracle: Oracle
    var db: Database
    var tick: nat

    constructor (oracle: Oracle, db: Database)
      ensures this.oracle == oracle && this.db == db && tick == 0
    {
      this.oracle, this.db, tick := oracle, db, 0;
    }

    method Try() returns (ok: bool)
      modifies this`tick
      ensures Result(db, tick, ok) == Check(oracle, old(db), old(tick))
    {
      ok := !oracle.fails(tick);
      tick := tick + 1;
    }

    method InitializeSchema() returns (ok: bool)
      modifies this
      ensures Result(db, tick, ok) == Initialize(oracle, old(db), old(tick))
    {
      db := db.(rows := db.rows || oracle.leavesRows(tick));
      ok := !oracle.fails(tick);
      if ok {
        db := db.(base := Whole);
      } else if !db.base.Whole? {
        db := db.(base := Partial);
      }
      tick := tick + 1;
    }

    method Save(version: int) returns (ok: bool)
      modifies this
      ensures Result(db, tick, ok) == SaveVersion(oracle, old(db), old(tick), version)
    {
      ok := !oracle.fails(tick);
      if ok {
        db := db.(version := Some(version));
      }
      tick := tick + 1;
    }

    method Transaction(m: Step) returns (ok: bool)
      modifies this
      ensures Result(db, tick, ok) == RunMigration(oracle, old(db), old(tick), m)
    {
      var begin := db;
      ok := Try();
      if ok {
        db := db.(applied := db.applied + [m.toVersion]);
        ok := Try();
      }
      if ok {
        ok := Save(m.toVersion);
      }
      if !ok {
        db := begin;
      }
    }
  }

  class Scheduler {
    const store: Store
    var initial: int
    var latest: int
    var migrations: map<int, Step>

    ghost function AsPlan(): Plan
      reads this
    {
      Plan(initial, latest, migrations)
    }

    // The zero value of a new scheduler's version counters.
    constructor (store: Store)
      ensures this.store == store && AsPlan() == Plan(0, 0, map[])
      ensures Registered(AsPlan())
    {
      this.store := store;
      initial, latest, migrations := 0, 0, map[];
    }

    method RegisterInitializer(version: int)
      modifies this
      ensures AsPlan() == Plan(version, if version > old(latest) then version else old(latest), old(migrations))
      ensures old(Registered(AsPlan())) ==> Registered(AsPlan())
    {
      initial := version;
      if version > latest {
        latest := version;
      }
    }

    method RegisterMigration(m: Step)
      modifies this
      ensures AsPlan() == Plan(old(initial), if m.toVersion > old(latest) then m.toVersion else old(latest),
                               old(migrations)[m.toVersion := m])
      ensures old(Registered(AsPlan())) ==> Registered(AsPlan())
    {
      migrations := migrations[m.toVersion := m];
      if m.toVersion > latest {
        latest := m.toVersion;
      }
    }

    method UpgradeSchema(version: int) returns (ok: bool)
      modifies store
      ensures Result(store.db, store.tick, ok) == Upgrade(AsPlan(), store.oracle, old(store.db), old(store.tick), version)
    {
      if version > latest {
        ok := store.Try();
        if ok {
          ok := store.Save(latest);
        }
        return;
      }
      if version == latest {
        ok := store.Try();
        return;
      }
      var next := version + 1;
      while next <= latest
        invariant UpgradeFrom(AsPlan(), store.oracle, store.db, store.tick, next)
               == UpgradeFrom(AsPlan(), store.oracle, old(store.db), old(store.tick), version + 1)
      {
        if next !in migrations {
          return false;
        }
        ok := store.Transaction(migrations[next]);
        if !ok {
          return;
        }
        next := next + 1;
      }
      ok := true;
    }

    method ApplyAll() returns (ok: bool)
      modifies store
      ensures Result(store.db, store.tick, ok) == Apply(AsPlan(), store.oracle, old(store.db), old(store.tick))
    {
      ok := store.Try();
      if !ok {
        return;
      }
      if store.db.version.Some? {
        ok := UpgradeSchema(store.db.version.value);
        return;
      }
      ok := store.Try();
      if !ok {
        return;
      }
      if !store.db.rows {
        ok := store.InitializeSchema();
        if ok {
          ok := store.Try();
        }
        if ok {
          ok := store.Save(initial);
        }
        if ok {
          ok := UpgradeSchema(initial);
        }
        return;
      }
      ok := store.Try();
      if !ok {
        return;
      }
      if latest == initial {
        ok := store.Try();
        if ok {
          ok := store.Save(initial);
        }
        return;
      }
      ok := UpgradeSchema(initial);
    }
  }
}
