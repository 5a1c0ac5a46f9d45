/**
 When the runtime starts: besides compiling, every enabled profile must leave a snapshot
 of its own preview (service/runtime.go).
 */
module RuntimeStart {
  import opened Outcomes
  import opened Orders
  import opened MihomoRenderer
  import opened Workspace
  import opened RuntimeOfSaved
  import FinalConfig
  import WorkspaceProof
  import WorkspaceRuns
  import WorkspacePreview

  // ----- What the snapshots leave behind -----

  // How many profiles come before the first whose preview fails.
  ghost function Previewable(env: Env, db: Database, ids: seq<int>): (k: nat)
    ensures k <= |ids|
  {
    if ids == [] || !PreviewSaved(env, db, ids[0]).Ok? then 0 else 1 + Previewable(env, db, ids[1..])
  }

  lemma {:induction false} UpToFirst(env: Env, db: Database, ids: seq<int>)
    ensures var k := Previewable(env, db, ids);
            && (forall i :: 0 <= i < k ==> PreviewSaved(env, db, ids[i]).Ok?)
            && (k < |ids| ==> !PreviewSaved(env, db, ids[k]).Ok?)
  {
    hide PreviewSaved;
    if ids != [] && PreviewSaved(env, db, ids[0]).Ok? {
      UpToFirst(env, db, ids[1..]);
    }
  }

  lemma SnapshotsUnseen(env: Env, db: Database, runtimes: map<int, Fragment>, id: int)
    ensures PreviewSaved(env, db.(runtimes := runtimes), id) == PreviewSaved(env, db, id)
  {
    hide Preview, NodeIds, Sort, Mine, FindByIds, ParseSettings;
    var db' := db.(runtimes := runtimes);
    if ViewOf(env, db, id).Ok? {
      PreviewUnseen(env, db, runtimes, PayloadOf(ViewOf(env, db, id).value));
    }
  }

  lemma PreviewUnseen(env: Env, db: Database, runtimes: map<int, Fragment>, p: Payload)
    ensures Preview(env, db.(runtimes := runtimes), p) == Preview(env, db, p)
  {
    hide Normalize, Resolve, RenderFragment;
  }

  lemma {:induction false} PreviewableUnseen(env: Env, db: Database, runtimes: map<int, Fragment>, ids: seq<int>)
    ensures Previewable(env, db.(runtimes := runtimes), ids) == Previewable(env, db, ids)
  {
    hide PreviewSaved;
    if ids != [] {
      SnapshotsUnseen(env, db, runtimes, ids[0]);
      PreviewableUnseen(env, db, runtimes, ids[1..]);
    }
  }

  // The answer a failing snapshot gives.
  function Stop(preview: Step<ProfilePreview, Problem>): Step<FinalConfig.Rendered, BuildProblem>
    requires !preview.Ok?
  {
    match preview
    case Failed(problem) => Failed(Unsnapped(problem))
    case Crashed => Crashed
  }

  // Exactly the profiles before the first failing one have a new snapshot, of their own
  // preview; nothing else changes.
  lemma {:induction false} SnapshotsUpToFailure(env: Env, db: Database, ids: seq<int>)
    ensures var (after, stopped) := Snapshots(env, db, ids);
            var k := Previewable(env, db, ids);
            && after == db.(runtimes := after.runtimes)
            && (forall id :: id in after.runtimes <==> id in db.runtimes || id in ids[..k])
            && (forall id :: id in ids[..k] ==>
                  PreviewSaved(env, db, id).Ok? && after.runtimes[id] == PreviewSaved(env, db, id).value.fragment)
            && (forall id :: id in db.runtimes && id !in ids[..k] ==> after.runtimes[id] == db.runtimes[id])
            && (stopped.None? <==> k == |ids|)
            && (k < |ids| ==>
                  !PreviewSaved(env, db, ids[k]).Ok? && stopped == Some(Stop(PreviewSaved(env, db, ids[k]))))
    decreases |ids|
  {
    hide PreviewSaved;
    if ids != [] && PreviewSaved(env, db, ids[0]).Ok? {
      var runtimes := db.runtimes[ids[0] := PreviewSaved(env, db, ids[0]).value.fragment];
      var next := db.(runtimes := runtimes);
      SnapshotsUpToFailure(env, next, ids[1..]);
      PreviewableUnseen(env, db, runtimes, ids[1..]);
      var k := Previewable(env, db, ids);
      assert ids[..k] == [ids[0]] + ids[1..][..k - 1];
      forall id ensures PreviewSaved(env, next, id) == PreviewSaved(env, db, id) {
        SnapshotsUnseen(env, db, runtimes, id);
      }
      assert Snapshots(env, db, ids) == Snapshots(env, next, ids[1..]);
    }
  }

  // ----- When it starts -----

  // Every profile stands as some save wrote it, but for deleted nodes.
  ghost predicate AllWritten(env: Env, db: Database) {
    forall id :: id in db.profiles ==>
      exists q, gone :: WorkspaceProof.Holds(env, db, id, q, gone) && WorkspaceProof.Canonical(q)
  }

  ghost predicate ChoiceKnown(db: Database, id: int) {
    forall n :: n in Chosen(db, id) ==> Has(db.nodes, n)
  }

  ghost predicate AllKnown(db: Database, ids: seq<int>) {
    forall id :: id in EnabledIds(db, ids) ==> ChoiceKnown(db, id)
  }

  // Of a profile that compiles only unknown nodes can fail the preview.
  lemma PreviewOfEnabled(env: Env, db: Database, ids: seq<int>, s: RuntimeSettings, id: int)
    requires KeysAscend(db.nodes) && WorkspaceProof.SettingsRoundTrip(env) && AllWritten(env, db)
    requires Compile(env, db, ids, s).Ok? && id in EnabledIds(db, ids)
    ensures PreviewSaved(env, db, id).Ok? <==> ChoiceKnown(db, id)
    ensures !PreviewSaved(env, db, id).Ok? ==> PreviewSaved(env, db, id) == Failed(NodesMissing)
  {
    hide Compile, ViewOf, PreviewSaved, RenderFragment, Resolve, FindByIds, KeysAscend, Has, Chosen, EnabledIds,
         WorkspaceProof.SettingsRoundTrip, WorkspaceProof.Holds, WorkspaceProof.Canonical, Remaining, AgreesWithView;
    var q, gone :| WorkspaceProof.Holds(env, db, id, q, gone) && WorkspaceProof.Canonical(q);
    ViewHasFlag(env, db, id);
    EnabledProfileServed(env, db, ids, s, id);
    StoredView(env, db, id, q, gone);
    PreviewOfStored(env, db, id, q, gone);
    var view := ViewOf(env, db, id).value;
    assert Remaining(q, gone).nodeIds == Chosen(db, id);
    if n :| n in Chosen(db, id) && !Has(db.nodes, n) {
      MissingFails(env, db, id, q, gone, n);
    }
  }

  lemma MissingFails(env: Env, db: Database, id: int, q: Payload, gone: set<int>, n: int)
    requires WorkspaceProof.SettingsRoundTrip(env)
    requires WorkspaceProof.Holds(env, db, id, q, gone) && WorkspaceProof.Canonical(q)
    requires n in Remaining(q, gone).nodeIds && !Has(db.nodes, n)
    ensures PreviewSaved(env, db, id) == Failed(NodesMissing)
  {
    hide PreviewSaved, RenderFragment, Resolve, Has, Remaining, Resolvable,
         WorkspaceProof.SettingsRoundTrip, WorkspaceProof.Holds, WorkspaceProof.Canonical;
    SavedPreviewUnfolds(env, db, id, q, gone);
    RemainingCanonical(q, gone);
    ResolvedIff(db.nodes, Remaining(q, gone).nodeIds);
  }

  /** Starting and reloading succeed exactly when the enabled profiles compile and every
      node they choose exists; the status page only asks for the former. */
  lemma StartsIff(env: Env, db: Database, ids: seq<int>, s: RuntimeSettings)
    requires KeysAscend(db.nodes) && WorkspaceProof.SettingsRoundTrip(env) && AllWritten(env, db)
    ensures BuildRuntime(env, db, ids, s, true).1.Ok? <==> Compile(env, db, ids, s).Ok? && AllKnown(db, ids)
    ensures Compile(env, db, ids, s).Ok? ==>
              BuildRuntime(env, db, ids, s, true).1 ==
                if AllKnown(db, ids) then Compile(env, db, ids, s) else Failed(Unsnapped(NodesMissing))
    ensures BuildRuntime(env, db, ids, s, false) == (db, Compile(env, db, ids, s))
  {
    if Compile(env, db, ids, s).Ok? {
      hide Compile, PreviewSaved, Snapshots, KeysAscend, ChoiceKnown, WorkspaceProof.SettingsRoundTrip, AllWritten;
      var enabled := EnabledIds(db, ids);
      forall id | id in enabled
        ensures PreviewSaved(env, db, id).Ok? <==> ChoiceKnown(db, id)
        ensures !PreviewSaved(env, db, id).Ok? ==> PreviewSaved(env, db, id) == Failed(NodesMissing)
      {
        PreviewOfEnabled(env, db, ids, s, id);
      }
      SnapshotsUpToFailure(env, db, enabled);
      UpToFirst(env, db, enabled);
      var k := Previewable(env, db, enabled);
      if k < |enabled| {
        assert enabled[k] in enabled;
      } else {
        forall id | id in enabled ensures PreviewSaved(env, db, id).Ok? {
          var i :| 0 <= i < |enabled| && enabled[i] == id;
        }
      }
    }
  }

  // A started runtime leaves every enabled profile's preview as its snapshot, and serves it.
  lemma StartedServes(env: Env, db: Database, ids: seq<int>, s: RuntimeSettings, id: int, q: Payload, gone: set<int>)
    requires KeysAscend(db.nodes) && Lists(db, ids) && BuildRuntime(env, db, ids, s, true).1.Ok?
    requires WorkspaceProof.SettingsRoundTrip(env) && WorkspaceProof.Holds(env, db, id, q, gone)
    requires WorkspaceProof.Canonical(q) && q.includeInRuntime
    ensures var (after, built) := BuildRuntime(env, db, ids, s, true);
            && PreviewSaved(env, db, id).Ok?
            && id in after.runtimes && after.runtimes[id] == PreviewSaved(env, db, id).value.fragment
            && ServesSaved(env, db, built.value.config, id, q, gone)
  {
    hide Compile, PreviewSaved, Snapshots, KeysAscend, ServesSaved, WorkspaceProof.SettingsRoundTrip,
         WorkspaceProof.Holds, WorkspaceProof.Canonical;
    assert Compile(env, db, ids, s).Ok?;
    RuntimeServesSaved(env, db, ids, s, id, q, gone);
    StoredViewFlag(env, db, id, q, gone);
    ViewHasFlag(env, db, id);
    var enabled := EnabledIds(db, ids);
    SnapshotsUpToFailure(env, db, enabled);
    UpToFirst(env, db, enabled);
    assert enabled[..|enabled|] == enabled;
  }

  // ----- After a run of the workspace -----

  lemma {:induction false} NothingUntouched(env: Env, w: WorkspaceRuns.World, events: seq<WorkspaceRuns.Event>,
                                            id: int)
    requires w.db.profiles == map[]
    ensures id in WorkspaceRuns.Run(env, w, events).db.profiles ==> WorkspacePreview.LastOf(env, w, events, id).Held?
    decreases |events|
  {
    if events != [] {
      hide Normalize, NameInUse, PortInUse, OtherNodes, WithoutNode;
      var earlier := events[..|events| - 1];
      NothingUntouched(env, w, earlier, id);
      ProfilesAfter(env, WorkspaceRuns.Run(env, w, earlier), events[|events| - 1], id);
    }
  }

  lemma ProfilesAfter(env: Env, w: WorkspaceRuns.World, e: WorkspaceRuns.Event, id: int)
    ensures id in WorkspaceRuns.React(env, w, e).db.profiles ==>
              || (e.Commit? && WorkspaceRuns.Ready(w, e.session) && WorkspaceRuns.WrittenId(w, w.plans[e.session]) == id)
              || (id in w.db.profiles && (e.DeleteProfile? && e.id > 0 ==> e.id != id))
  {
    hide Normalize, NameInUse, PortInUse, OtherNodes, WithoutNode, Others, WorkspaceRuns.Replaced;
  }

  ghost predicate LastKnown(db: Database, last: WorkspacePreview.Last) {
    last.Held? && forall n :: n in DistinctIds(last.payload.nodeIds) && n !in last.dropped ==> Has(db.nodes, n)
  }

  // What the enabled profiles were last saved with, without the nodes deleted since, exists.
  ghost predicate AllLastKnown(env: Env, w: WorkspaceRuns.World, events: seq<WorkspaceRuns.Event>, ids: seq<int>) {
    var now := WorkspaceRuns.Run(env, w, events).db;
    forall id :: id in EnabledIds(now, ids) ==> LastKnown(now, WorkspacePreview.LastOf(env, w, events, id))
  }

  lemma LastIsChosen(env: Env, w: WorkspaceRuns.World, events: seq<WorkspaceRuns.Event>, id: int)
    requires WorkspaceProof.SettingsRoundTrip(env) && WorkspaceRuns.Idle(w) && w.db.profiles == map[]
    requires id in WorkspaceRuns.Run(env, w, events).db.profiles
    ensures var now, last := WorkspaceRuns.Run(env, w, events).db, WorkspacePreview.LastOf(env, w, events, id);
            && (exists q, gone :: WorkspaceProof.Holds(env, now, id, q, gone) && WorkspaceProof.Canonical(q))
            && (LastKnown(now, last) <==> ChoiceKnown(now, id))
  {
    hide WorkspaceProof.SettingsRoundTrip, WorkspaceProof.Holds, WorkspaceProof.Canonical, Has, ViewOf, Normalize, Chosen,
         DistinctIds, WorkspaceProof.Without, WorkspaceRuns.Run, WorkspacePreview.LastOf, WorkspaceRuns.Idle;
    var now, last := WorkspaceRuns.Run(env, w, events).db, WorkspacePreview.LastOf(env, w, events, id);
    NothingUntouched(env, w, events, id);
    WorkspacePreview.RunTells(env, w, events, id);
    var q := Normalize(last.payload).value;
    WorkspaceProof.NormalizeCanonical(last.payload);
    StoredView(env, now, id, q, last.dropped);
    ViewHasFlag(env, now, id);
    NormalChoice(last.payload);
  }

  lemma AllWrittenAfterRun(env: Env, w: WorkspaceRuns.World, events: seq<WorkspaceRuns.Event>, ids: seq<int>)
    requires WorkspaceProof.SettingsRoundTrip(env) && WorkspaceRuns.Idle(w) && w.db.profiles == map[]
    ensures AllWritten(env, WorkspaceRuns.Run(env, w, events).db)
    ensures AllKnown(WorkspaceRuns.Run(env, w, events).db, ids) <==> AllLastKnown(env, w, events, ids)
  {
    hide WorkspaceRuns.Run, WorkspacePreview.LastOf, WorkspaceProof.SettingsRoundTrip, WorkspaceRuns.Idle,
         WorkspaceProof.Holds, WorkspaceProof.Canonical, LastKnown, ChoiceKnown;
    var now := WorkspaceRuns.Run(env, w, events).db;
    forall id | id in now.profiles
      ensures exists q, gone :: WorkspaceProof.Holds(env, now, id, q, gone) && WorkspaceProof.Canonical(q)
    {
      LastIsChosen(env, w, events, id);
    }
    forall id | id in EnabledIds(now, ids)
      ensures LastKnown(now, WorkspacePreview.LastOf(env, w, events, id)) <==> ChoiceKnown(now, id)
    {
      LastIsChosen(env, w, events, id);
    }
  }

  /** Whatever was saved, concurrently or not, and deleted since an empty workspace: the
      runtime starts exactly when it compiles and what each enabled profile was last saved
      with, without the nodes deleted since, exists. */
  lemma StartsAfterRunIff(env: Env, w: WorkspaceRuns.World, events: seq<WorkspaceRuns.Event>, ids: seq<int>,
                          s: RuntimeSettings)
    requires WorkspaceProof.SettingsRoundTrip(env) && WorkspaceRuns.Idle(w) && w.db.profiles == map[]
    ensures BuildRuntime(env, WorkspaceRuns.Run(env, w, events).db, ids, s, true).1.Ok? <==>
              Compile(env, WorkspaceRuns.Run(env, w, events).db, ids, s).Ok? && AllLastKnown(env, w, events, ids)
  {
    hide WorkspaceRuns.Run, BuildRuntime, Compile, WorkspaceProof.SettingsRoundTrip, AllWritten, AllKnown, AllLastKnown,
         KeysAscend;
    WorkspaceRuns.RunKeepsKeys(env, w, events);
    AllWrittenAfterRun(env, w, events, ids);
    StartsIff(env, WorkspaceRuns.Run(env, w, events).db, ids, s);
  }

  lemma NormalChoice(p: Payload)
    requires Normalize(p).Ok?
    ensures Normalize(p).value.nodeIds == DistinctIds(p.nodeIds)
  {
  }
}
