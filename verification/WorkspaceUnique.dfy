/** When concurrent saves keep names and mixed ports apart. */
module WorkspaceUnique {
  import opened Outcomes
  import opened MihomoRenderer
  import opened Workspace
  import opened WorkspaceProof
  import opened WorkspaceRuns

  // ----- Reading the log -----

  /** Position of the latest entry about a profile, or -1. */
  function Latest(log: seq<Entry>, id: int): (k: int)
    ensures -1 <= k < |log|
    ensures k >= 0 ==> log[k].id == id
  {
    if log == [] then -1
    else if log[|log| - 1].id == id then |log| - 1
    else Latest(log[..|log| - 1], id)
  }

  lemma LatestSnoc(log: seq<Entry>, e: Entry, id: int)
    ensures Latest(log + [e], id) == if e.id == id then |log| else Latest(log, id)
  {
    assert (log + [e])[..|log|] == log;
  }

  // Since some moment another profile was given what this row claims, and still has it.
  ghost predicate Rival(env: Env, f: Field, log: seq<Entry>, since: nat, own: int, row: PortProfile, other: int) {
    var k := Latest(log, other);
    && other != own && k >= since
    && log[k].Wrote?
    && Claimed(env, f, row).Some? && Claimed(env, f, log[k].row) == Claimed(env, f, row)
  }

  function CheckedAt(f: Field, plan: Plan): nat {
    match f
    case ByName => plan.nameAt
    case ByPort => if plan.portAt.Some? then plan.portAt.value else 0
  }

  // A commit that goes through although another session committed the same claim for
  // another profile after this session's own check.
  ghost predicate Overtaken(env: Env, f: Field, w: World, e: Event) {
    e.Commit? && Ready(w, e.session) &&
    var plan := w.plans[e.session];
    NormalizeAsWritten(w, plan);
    exists other :: Rival(env, f, w.log, CheckedAt(f, plan), WrittenId(w, plan), WrittenRow(env, w, plan), other)
  }

  // ----- What the log and the plans say of the tables -----

  ghost predicate Logged(w: World) {
    forall id :: Latest(w.log, id) >= 0 ==>
      match w.log[Latest(w.log, id)]
      case Wrote(_, row) => id in w.db.profiles && w.db.profiles[id] == row
      case Removed(_) => id !in w.db.profiles
  }

  // What the check looked for.
  function Sought(env: Env, f: Field, plan: Plan): Option<Claim>
    requires Normalize(plan.payload).Ok?
  {
    var q := Normalize(plan.payload).value;
    match f
    case ByName => Some(Called(env.goLower(q.name)))
    case ByPort => if plan.portAt.Some? && q.mixedPort > 0 then Some(Listening(q.mixedPort)) else None
  }

  ghost predicate Holder(env: Env, f: Field, plan: Plan, id: int, row: PortProfile)
    requires Normalize(plan.payload).Ok?
  {
    && Considered(id, CurrentId(plan.target))
    && Sought(env, f, plan).Some? && Claimed(env, f, row) == Sought(env, f, plan)
  }

  // Whoever holds what a pending save looked for got it after the look.
  ghost predicate Cleared(env: Env, f: Field, w: World, plan: Plan) {
    && CheckedAt(f, plan) <= |w.log|
    && Normalize(plan.payload).Ok?
    && forall id :: id in w.db.profiles && Holder(env, f, plan, id, w.db.profiles[id]) ==>
         Latest(w.log, id) >= CheckedAt(f, plan)
  }

  ghost predicate Tracked(env: Env, f: Field, w: World) {
    && Logged(w)
    && forall s :: s in w.plans ==> Cleared(env, f, w, w.plans[s])
  }

  // Writing or removing a row keeps every pending look explained.
  lemma ClearedLater(env: Env, f: Field, w: World, w': World, plan: Plan)
    requires Cleared(env, f, w, plan) && |w'.log| == |w.log| + 1 && w'.log[..|w.log|] == w.log
    requires forall id :: id in w'.db.profiles && id != w'.log[|w.log|].id ==>
               id in w.db.profiles && w'.db.profiles[id] == w.db.profiles[id]
    ensures Cleared(env, f, w', plan)
  {
    hide Normalize, Claimed, Sought;
    assert w'.log == w.log + [w'.log[|w.log|]];
    forall id | id in w'.db.profiles && Holder(env, f, plan, id, w'.db.profiles[id])
      ensures Latest(w'.log, id) >= CheckedAt(f, plan)
    {
      LatestSnoc(w.log, w'.log[|w.log|], id);
    }
  }

  lemma LoggedLater(w: World, w': World)
    requires Logged(w) && |w'.log| == |w.log| + 1 && w'.log[..|w.log|] == w.log
    requires forall id :: id != w'.log[|w.log|].id ==>
               (id in w'.db.profiles <==> id in w.db.profiles)
               && (id in w.db.profiles ==> w'.db.profiles[id] == w.db.profiles[id])
    requires match w'.log[|w.log|]
             case Wrote(id, row) => id in w'.db.profiles && w'.db.profiles[id] == row
             case Removed(id) => id !in w'.db.profiles
    ensures Logged(w')
  {
    var e := w'.log[|w.log|];
    assert w'.log == w.log + [e];
    forall id | Latest(w'.log, id) >= 0
      ensures match w'.log[Latest(w'.log, id)]
              case Wrote(_, row) => id in w'.db.profiles && w'.db.profiles[id] == row
              case Removed(_) => id !in w'.db.profiles
    {
      LatestSnoc(w.log, e, id);
    }
  }

  lemma WriteKeepsTracked(env: Env, f: Field, w: World, w': World)
    requires Tracked(env, f, w) && |w'.log| == |w.log| + 1 && w'.log[..|w.log|] == w.log
    requires forall s :: s in w'.plans ==> s in w.plans && w'.plans[s] == w.plans[s]
    requires forall id :: id != w'.log[|w.log|].id ==>
               (id in w'.db.profiles <==> id in w.db.profiles)
               && (id in w.db.profiles ==> w'.db.profiles[id] == w.db.profiles[id])
    requires match w'.log[|w.log|]
             case Wrote(id, row) => id in w'.db.profiles && w'.db.profiles[id] == row
             case Removed(id) => id !in w'.db.profiles
    ensures Tracked(env, f, w')
  {
    hide Logged, Cleared;
    LoggedLater(w, w');
    forall s | s in w'.plans ensures Cleared(env, f, w', w'.plans[s]) {
      ClearedLater(env, f, w, w', w.plans[s]);
    }
  }

  // Steps that write no profile row.
  lemma OtherStepKeepsTracked(env: Env, f: Field, w: World, w': World)
    requires Tracked(env, f, w) && w'.log == w.log && w'.db.profiles == w.db.profiles
    requires forall s :: s in w'.plans ==> Cleared(env, f, w, w'.plans[s])
    ensures Tracked(env, f, w')
  {
    hide Normalize, Claimed, Sought;
  }

  lemma NewPlanCleared(env: Env, f: Field, w: World, target: Target, payload: Payload)
    requires Normalize(payload).Ok? && !NameInUse(env, w.db, Normalize(payload).value, CurrentId(target))
    ensures Cleared(env, f, w, Plan(target, payload, |w.log|, None))
  {
    hide Normalize;
  }

  lemma CheckedPlanCleared(env: Env, f: Field, w: World, plan: Plan)
    requires Cleared(env, f, w, plan) && Normalize(plan.payload).Ok?
    requires !PortInUse(w.db, Normalize(plan.payload).value, CurrentId(plan.target))
    ensures Cleared(env, f, w, plan.(portAt := Some(|w.log|)))
  {
    hide Normalize;
  }

  lemma StepKeepsTracked(env: Env, f: Field, w: World, e: Event)
    requires Tracked(env, f, w)
    ensures Tracked(env, f, React(env, w, e))
  {
    hide Normalize, NameInUse, PortInUse, Logged, Cleared, Stored, Others, WithoutNode, OtherNodes, Replaced, Ready, AsWritten;
    var w' := React(env, w, e);
    match e
    case CheckName(session, target, payload) =>
      if Normalize(payload).Ok? && !NameInUse(env, w.db, Normalize(payload).value, CurrentId(target)) {
        NewPlanCleared(env, f, w, target, payload);
      }
      OtherStepKeepsTracked(env, f, w, w');
    case CheckPort(session) =>
      if session in w.plans && w.plans[session].portAt.None? && Normalize(w.plans[session].payload).Ok?
         && !PortInUse(w.db, Normalize(w.plans[session].payload).value, CurrentId(w.plans[session].target))
      {
        CheckedPlanCleared(env, f, w, w.plans[session]);
      }
      OtherStepKeepsTracked(env, f, w, w');
    case Commit(session) =>
      if Ready(w, session) {
        CommitShape(env, w, session);
        WriteKeepsTracked(env, f, w, w');
      }
    case DeleteProfile(id) =>
      if id > 0 {
        WriteKeepsTracked(env, f, w, w');
      }
    case _ => OtherStepKeepsTracked(env, f, w, w');
  }

  // ----- One commit -----

  // Lower-casing agrees on the name a pending save brings.
  ghost predicate LowersAlike(env: Env) {
    forall s :: env.sqlLower(s) == env.goLower(s)
  }

  lemma SoughtIsWritten(env: Env, f: Field, w: World, plan: Plan)
    requires Normalize(plan.payload).Ok? && plan.portAt.Some? && (f.ByName? ==> LowersAlike(env))
    ensures Normalize(AsWritten(w, plan)).Ok?
    ensures Sought(env, f, plan) == Claimed(env, f, WrittenRow(env, w, plan))
  {
    NormalizeAsWritten(w, plan);
    hide Normalize, AsWritten;
  }

  // A commit keeps all claims apart exactly when it was not overtaken.
  lemma CommitKeepsApartIff(env: Env, f: Field, w: World, session: nat)
    requires Tracked(env, f, w) && Apart(env, f, w.db.profiles) && (f.ByName? ==> LowersAlike(env))
    ensures Apart(env, f, React(env, w, Commit(session)).db.profiles) <==> !Overtaken(env, f, w, Commit(session))
  {
    if Ready(w, session) {
      hide Normalize, Claimed, Sought, Stored, AsWritten, LowersAlike, React;
      var plan := w.plans[session];
      CommitShape(env, w, session);
      SoughtIsWritten(env, f, w, plan);
      ApartAfterWrite(env, f, w, plan, WrittenId(w, plan), WrittenRow(env, w, plan));
    }
  }

  lemma ApartAfterWrite(env: Env, f: Field, w: World, plan: Plan, own: int, row: PortProfile)
    requires Logged(w) && Cleared(env, f, w, plan) && Apart(env, f, w.db.profiles)
    requires plan.target.Existing? ==> own == plan.target.id
    requires Sought(env, f, plan) == Claimed(env, f, row)
    ensures Apart(env, f, w.db.profiles[own := row]) <==>
              !exists other :: Rival(env, f, w.log, CheckedAt(f, plan), own, row, other)
  {
    hide Normalize, Claimed, Sought, Latest;
    var before, after := w.db.profiles, w.db.profiles[own := row];
    forall id | id in before && id != own && Claimed(env, f, row).Some? && Claimed(env, f, before[id]) == Claimed(env, f, row)
      ensures Rival(env, f, w.log, CheckedAt(f, plan), own, row, id)
    {
      assert Holder(env, f, plan, id, before[id]);
    }
    if other :| Rival(env, f, w.log, CheckedAt(f, plan), own, row, other) {
      assert other in before && before[other] == w.log[Latest(w.log, other)].row;
      assert Claimed(env, f, after[own]) == Claimed(env, f, after[other]);
    }
  }

  lemma OtherStepKeepsApart(env: Env, f: Field, w: World, e: Event)
    requires Apart(env, f, w.db.profiles) && !e.Commit?
    ensures Apart(env, f, React(env, w, e).db.profiles)
  {
    hide Normalize, Claimed, NameInUse, PortInUse;
  }

  // ----- Whole runs -----

  ghost predicate AlwaysApart(env: Env, f: Field, w: World, events: seq<Event>)
    decreases |events|
  {
    && Apart(env, f, Run(env, w, events).db.profiles)
    && (events != [] ==> AlwaysApart(env, f, w, events[..|events| - 1]))
  }

  ghost predicate NeverOvertaken(env: Env, f: Field, w: World, events: seq<Event>)
    decreases |events|
  {
    events != [] ==>
      && NeverOvertaken(env, f, w, events[..|events| - 1])
      && !Overtaken(env, f, Run(env, w, events[..|events| - 1]), events[|events| - 1])
  }

  lemma {:induction false} RunKeepsTracked(env: Env, f: Field, w: World, events: seq<Event>)
    requires Idle(w)
    ensures Tracked(env, f, Run(env, w, events))
    decreases |events|
  {
    if events == [] {
      IdleIsTracked(env, f, w);
    } else {
      hide Tracked, React, Idle;
      RunKeepsTracked(env, f, w, events[..|events| - 1]);
      StepKeepsTracked(env, f, Run(env, w, events[..|events| - 1]), events[|events| - 1]);
    }
  }

  lemma IdleIsTracked(env: Env, f: Field, w: World)
    requires Idle(w)
    ensures Tracked(env, f, w)
  {
  }

  /** Throughout a run of concurrent saves no two profiles share a mixed port (or, where
      SQL and Go lower-case alike, a name) exactly when no commit was overtaken: no other
      session gave the same to another profile between a save's check and its commit. */
  lemma {:induction false} ApartIffNeverOvertaken(env: Env, f: Field, w: World, events: seq<Event>)
    requires Idle(w) && Apart(env, f, w.db.profiles) && (f.ByName? ==> LowersAlike(env))
    ensures AlwaysApart(env, f, w, events) <==> NeverOvertaken(env, f, w, events)
    decreases |events|
  {
    hide Apart, React, Idle, LowersAlike, Overtaken, Tracked;
    if events != [] {
      var earlier, last := events[..|events| - 1], events[|events| - 1];
      ApartIffNeverOvertaken(env, f, w, earlier);
      RunKeepsTracked(env, f, w, earlier);
      var before := Run(env, w, earlier);
      if AlwaysApart(env, f, w, earlier) {
        assert Apart(env, f, before.db.profiles);
        if last.Commit? {
          CommitKeepsApartIff(env, f, before, last.session);
        } else {
          OtherStepKeepsApart(env, f, before, last);
          NotACommit(env, f, before, last);
        }
      }
    }
  }

  lemma NotACommit(env: Env, f: Field, w: World, e: Event)
    requires !e.Commit?
    ensures !Overtaken(env, f, w, e)
  {
  }

  // ----- Two saves side by side, and saves one after another -----

  lemma RunSnoc(env: Env, w: World, events: seq<Event>, e: Event)
    ensures Run(env, w, events + [e]) == React(env, Run(env, w, events), e)
  {
    assert (events + [e])[..|events|] == events;
  }

  function SideBySide(a: int, p: Payload, b: int, q: Payload): seq<Event> {
    [CheckName(0, Existing(a), p)] + [CheckPort(0)] + [CheckName(1, Existing(b), q)] + [CheckPort(1)]
    + [Commit(0)] + [Commit(1)]
  }

  // Both checks pass and both saves commit: what they bring ends up twice.
  lemma SideBySideCollide(env: Env, f: Field, w: World, a: int, p: Payload, b: int, q: Payload)
    requires Idle(w) && a in w.db.profiles && b in w.db.profiles && a != b
    requires Normalize(p).Ok? && Normalize(q).Ok?
    requires UniquenessProblem(env, w.db, Normalize(p).value, a).None?
    requires UniquenessProblem(env, w.db, Normalize(q).value, b).None?
    requires Claimed(env, f, RowOf(env, a, Normalize(p).value, ZERO_SETTINGS)).Some?
    requires Claimed(env, f, RowOf(env, a, Normalize(p).value, ZERO_SETTINGS))
          == Claimed(env, f, RowOf(env, b, Normalize(q).value, ZERO_SETTINGS))
    ensures !Apart(env, f, Run(env, w, SideBySide(a, p, b, q)).db.profiles)
  {
    hide Normalize, NameInUse, PortInUse, Stored, AsWritten, KeysInOrder, Run, Claimed, RowOf, WrittenRow, Apart;
    var n1, n2 := [CheckName(0, Existing(a), p)], [CheckName(0, Existing(a), p)] + [CheckPort(0)];
    var n3, n4 := n2 + [CheckName(1, Existing(b), q)], n2 + [CheckName(1, Existing(b), q)] + [CheckPort(1)];
    assert Run(env, w, []) == w && [] + n1 == n1 by { RunNothing(env, w); }
    RunSnoc(env, w, [], CheckName(0, Existing(a), p));
    RunSnoc(env, w, n1, CheckPort(0));
    RunSnoc(env, w, n2, CheckName(1, Existing(b), q));
    RunSnoc(env, w, n3, CheckPort(1));
    RunSnoc(env, w, n4, Commit(0));
    RunSnoc(env, w, n4 + [Commit(0)], Commit(1));
    var w4 := Run(env, w, n4);
    assert w4.db == w.db && w4.log == [];
    assert w4.plans == map[0 := Plan(Existing(a), p, 0, Some(0)), 1 := Plan(Existing(b), q, 0, Some(0))];
    BothCommit(env, f, w4, a, p, b, q);
  }

  lemma RunNothing(env: Env, w: World)
    ensures Run(env, w, []) == w
  {
  }

  lemma BothCommit(env: Env, f: Field, w: World, a: int, p: Payload, b: int, q: Payload)
    requires Ready(w, 0) && Ready(w, 1) && a != b
    requires w.plans[0].target == Existing(a) && w.plans[0].payload == p
    requires w.plans[1].target == Existing(b) && w.plans[1].payload == q
    requires Claimed(env, f, RowOf(env, a, Normalize(p).value, ZERO_SETTINGS)).Some?
    requires Claimed(env, f, RowOf(env, a, Normalize(p).value, ZERO_SETTINGS))
          == Claimed(env, f, RowOf(env, b, Normalize(q).value, ZERO_SETTINGS))
    ensures !Apart(env, f, React(env, React(env, w, Commit(0)), Commit(1)).db.profiles)
  {
    hide Normalize, Stored, AsWritten, React;
    var w' := React(env, w, Commit(0));
    CommitShape(env, w, 0);
    CommitShape(env, w', 1);
    NormalizeAsWritten(w, w.plans[0]);
    NormalizeAsWritten(w', w'.plans[1]);
    var after := React(env, w', Commit(1)).db.profiles;
    assert a in after && b in after;
  }

  // The three steps of one request, with nobody in between.
  ghost function SaveAlone(env: Env, w: World, target: Target, p: Payload): World {
    React(env, React(env, React(env, w, CheckName(0, target, p)), CheckPort(0)), Commit(0))
  }

  // Then a save is the update of the service method.
  lemma AloneIsUpdate(env: Env, w: World, id: int, p: Payload)
    ensures SaveAlone(env, w, Existing(id), p).db == Update(env, w.db, id, p).0
  {
    hide Normalize, NameInUse, PortInUse, Stored, ViewOf, AsWritten;
    if Normalize(p).Ok? && UniquenessProblem(env, w.db, Normalize(p).value, id).None? && id in w.db.profiles {
      var w2 := React(env, React(env, w, CheckName(0, Existing(id), p)), CheckPort(0));
      assert w2.db == w.db && w2.plans[0] == Plan(Existing(id), p, |w.log|, Some(|w.log|));
      CommitShape(env, w2, 0);
      KeptAsSent(w2, w2.plans[0]);
    }
  }

  lemma KeptAsSent(w: World, plan: Plan)
    requires WrittenId(w, plan) in w.db.profiles
    ensures AsWritten(w, plan) == plan.payload
  {
  }

  lemma AloneKeepsApart(env: Env, f: Field, w: World, target: Target, p: Payload)
    requires Apart(env, f, w.db.profiles) && (f.ByName? ==> LowersAlike(env))
    requires forall id :: id in w.db.profiles ==> id < w.nextProfile
    ensures Apart(env, f, SaveAlone(env, w, target, p).db.profiles)
  {
    hide Normalize, Stored, AsWritten, Apart;
    var w1 := React(env, w, CheckName(0, target, p));
    var w2 := React(env, w1, CheckPort(0));
    OtherStepKeepsApart(env, f, w, CheckName(0, target, p));
    OtherStepKeepsApart(env, f, w1, CheckPort(0));
    if Ready(w2, 0) {
      CommitShape(env, w2, 0);
      NormalizeAsWritten(w2, w2.plans[0]);
      FreeClaim(env, f, w, CurrentId(target), WrittenId(w2, w2.plans[0]), Normalize(p).value, WrittenRow(env, w2, w2.plans[0]));
    }
  }

  lemma FreeClaim(env: Env, f: Field, w: World, currentId: int, own: int, q: Payload, row: PortProfile)
    requires Apart(env, f, w.db.profiles) && (f.ByName? ==> LowersAlike(env))
    requires UniquenessProblem(env, w.db, q, currentId).None?
    requires currentId == own || (currentId == 0 && own !in w.db.profiles)
    requires row.name == q.name && row.mixedPort == q.mixedPort
    ensures Apart(env, f, w.db.profiles[own := row])
  {
  }

  ghost function OneByOne(env: Env, w: World, saves: seq<(Target, Payload)>): World {
    if saves == [] then w
    else
      var (target, p) := saves[|saves| - 1];
      SaveAlone(env, OneByOne(env, w, saves[..|saves| - 1]), target, p)
  }

  /** Saves one after another never come to share a mixed port, nor, where SQL and Go
      lower-case alike, a name. */
  lemma {:induction false} SavesKeepUnique(env: Env, f: Field, w: World, saves: seq<(Target, Payload)>)
    requires KeysInOrder(w) && Apart(env, f, w.db.profiles) && (f.ByName? ==> LowersAlike(env))
    ensures Apart(env, f, OneByOne(env, w, saves).db.profiles) && KeysInOrder(OneByOne(env, w, saves))
    decreases |saves|
  {
    hide Apart, LowersAlike, React;
    if saves != [] {
      var (target, p) := saves[|saves| - 1];
      SavesKeepUnique(env, f, w, saves[..|saves| - 1]);
      var before := OneByOne(env, w, saves[..|saves| - 1]);
      AloneKeepsApart(env, f, before, target, p);
      hide KeysInOrder;
      StepKeepsKeys(env, before, CheckName(0, target, p));
      var w1 := React(env, before, CheckName(0, target, p));
      StepKeepsKeys(env, w1, CheckPort(0));
      StepKeepsKeys(env, React(env, w1, CheckPort(0)), Commit(0));
    }
  }
}
