/** A run whose workers survive needs no recovery: what drives it on has always been sent already. */
module RunUnaided {
  import opened Wrappers
  import opened Applications
  import opened RunModel
  import opened RunHealth
  import opened RunSteps
  import opened RunSafety
  import opened RunProgress
  import opened Sets

  // ----- selected candidates are analysed -----

  /** The selection on record changes only when a run is started or its selection is made. */
  lemma SelectionKept(w: World, e: Event)
    requires Enabled(w, e) && PhaseLeft(w.status) <= PhaseLeft(DeepAnalysis)
    ensures Pending(Step(w, e)) == Pending(w)
    ensures PhaseLeft(Step(w, e).status) <= PhaseLeft(DeepAnalysis)
  {
    StepPhase(w, e);
    hide AfterRunStart, AfterFinalize, AfterPoll, AfterDeep, AfterRecover, AfterCommitInsert, SelectionOf;
    match e
    case DeliverRunStart(memo, knockedOut, batchId, dies) => LateStart(w, memo, knockedOut, batchId, dies);
    case CheckExisting(app) => SendSelects(w, {CommitLight(app)});
    case CommitInsert(app, stage, dies) => CommitSelects(w, app, stage, dies);
    case DeliverFinalize(selected, batchId, death) => LateFinalize(w, selected, batchId, death);
    case DeliverDeep(app, failed, dies) => DeepSelects(w, app, failed, dies);
    case DeliverPoll(stage, id, ended, failures, dies) => PollSelects(w, stage, id, ended, failures, dies);
    case DeliverScore => ScoreSelects(w);
    case Recover => RecoverSelects(w);
  }

  function SelectionOf(w: World): seq<AppId> { w.funnel.deepPending }

  lemma SameSelection(v: World, w: World)
    requires SelectionOf(v) == SelectionOf(w)
    ensures Pending(v) == Pending(w)
  {
  }

  lemma LateStart(w: World, memo: map<AppId, Evaluation>, knockedOut: set<AppId>, batchId: nat, dies: bool)
    requires w.status != Queued
    ensures AfterRunStart(w, memo, knockedOut, batchId, dies) == w
  {
  }

  lemma LateFinalize(w: World, selected: seq<AppId>, batchId: nat, death: FinalizeDeath)
    requires w.status != Selecting
    ensures AfterFinalize(w, selected, batchId, death) == w
  {
  }

  lemma SendSelects(w: World, messages: set<Message>)
    ensures Pending(Send(w, messages)) == Pending(w)
  {
  }

  lemma CommitSelects(w: World, app: AppId, stage: StageReached, dies: bool)
    ensures Pending(AfterCommitInsert(w, app, stage, dies)) == Pending(w)
  {
    hide Pending;
    SameSelection(AfterCommitInsert(w, app, stage, dies), w);
  }

  lemma DeepSelects(w: World, app: AppId, failed: bool, dies: bool)
    ensures Pending(AfterDeep(w, app, failed, dies)) == Pending(w)
  {
    hide Pending, DeepDone;
    SameSelection(AfterDeep(w, app, failed, dies), w);
  }

  lemma PollSelects(w: World, stage: BatchStage, id: nat, ended: bool, failures: set<AppId>, dies: bool)
    requires id in w.batches
    ensures Pending(AfterPoll(w, stage, id, ended, failures, dies)) == Pending(w)
  {
    hide Pending, DrainLight, DrainDeep, Polled;
    SameSelection(AfterPoll(w, stage, id, ended, failures, dies), w);
  }

  lemma ScoreSelects(w: World)
    ensures Pending(AfterScore(w)) == Pending(w)
  {
  }

  lemma RecoverSelects(w: World)
    ensures Pending(AfterRecover(w)) == Pending(w)
  {
    hide Pending, DeepDone, Missing, Undone, Reissued;
    SameSelection(AfterRecover(w), w);
  }

  lemma {:induction false} SelectionStays(w: World, events: seq<Event>)
    requires Executable(w, events) && PhaseLeft(w.status) <= PhaseLeft(DeepAnalysis)
    ensures Pending(Execute(w, events)) == Pending(w)
    decreases |events|
  {
    hide Step, Enabled, Pending;
    if events != [] {
      SelectionKept(w, events[0]);
      SelectionStays(Step(w, events[0]), events[1..]);
    }
  }

  lemma FinalizeRecords(w: World, selected: seq<AppId>, batchId: nat, death: FinalizeDeath)
    requires w.status == Selecting && death != BeforeAdvance
    ensures
      var v := AfterFinalize(w, selected, batchId, death);
      PhaseLeft(v.status) <= PhaseLeft(DeepAnalysis) && forall a :: a in selected <==> a in Pending(v)
  {
    hide Deeps, DeepDone;
  }

  /** Everybody selection named is at Stage 5 before the run is scored, whatever happens in between. */
  lemma SelectedAreAnalysed(w: World, selected: seq<AppId>, batchId: nat, death: FinalizeDeath, later: seq<Event>)
    requires Inv(w) && w.status == Selecting && death != BeforeAdvance
    requires Enabled(w, DeliverFinalize(selected, batchId, death))
    requires Executable(Step(w, DeliverFinalize(selected, batchId, death)), later)
    ensures
      var end := Execute(Step(w, DeliverFinalize(selected, batchId, death)), later);
      end.status == Scoring || end.status == Complete ==>
        forall a :: a in selected ==> a in end.evaluations && end.evaluations[a].stage == Deep
  {
    var chosen := Step(w, DeliverFinalize(selected, batchId, death));
    FinalizeRecords(w, selected, batchId, death);
    StepInv(w, DeliverFinalize(selected, batchId, death));
    hide AfterFinalize;
    SelectionStays(chosen, later);
    ExecuteInv(chosen, later);
    hide Execute, Executable, Pending;
    AnalysedBeforeScoring(Execute(chosen, later));
  }

  lemma AnalysedBeforeScoring(w: World)
    requires Inv(w)
    ensures w.status == Scoring || w.status == Complete ==>
              forall a :: a in Pending(w) ==> a in w.evaluations && w.evaluations[a].stage == Deep
  {
  }

  // ----- what drives a run -----

  /** The worker goes through with its delivery instead of stopping between two commits. */
  predicate Survived(e: Event) {
    match e
    case DeliverRunStart(_, _, _, dies) => !dies
    case CommitInsert(_, _, dies) => !dies
    case DeliverFinalize(_, _, death) => death == Survives
    case DeliverDeep(_, _, dies) => !dies
    case DeliverPoll(_, _, _, _, dies) => !dies
    case _ => true
  }

  /** The messages any of which takes an unfinished run on. */
  function Driving(w: World): set<Message> {
    match w.status
    case Queued => {RunStart}
    case Screening =>
      if w.funnel.light.Some? then {PollBatch(LightBatch, w.funnel.light.value.id)} else Screens(Missing(w))
    case Selecting => {FinalizeRun}
    case DeepAnalysis =>
      if w.funnel.deep.Some? then {PollBatch(DeepBatch, w.funnel.deep.value.id)}
      else if Undone(w) == {} then Deeps(Pending(w)) else Deeps(Undone(w))
    case Scoring => {ScoreRun}
    case Complete => {}
    case Failed => {}
  }

  ghost predicate Driven(w: World) {
    Driving(w) <= w.sent && (Active(w.status) ==> Driving(w) != {})
  }

  /** Completing a driving message is progress. */
  lemma DrivingIsProductive(w: World, m: Message, e: Event)
    requires Inv(w) && m in Driving(w) && Completes(m, e) && Enabled(w, e) && Survived(e)
    requires w.config.pollInterval > 0
    ensures Closer(Step(w, e), w)
  {
    if m in Reissued(w) {
      ReissuedIsProductive(w, m, e);
    } else {
      assert w.status == DeepAnalysis && Undone(w) == {} && e.DeliverDeep?;
      NothingLeft(Pending(w), DeepDone(w));
      DeepPhaseEnds(w, e.app, e.failed);
    }
  }

  lemma DeepPhaseEnds(w: World, app: AppId, failed: bool)
    requires w.status == DeepAnalysis && Pending(w) <= DeepDone(w) && app in Pending(w)
    ensures AfterDeep(w, app, failed, false).status == Scoring
  {
  }

  lemma SendDriven(w: World, messages: set<Message>)
    requires Driven(w)
    ensures Driven(Send(w, messages))
  {
    SameDriving(Send(w, messages), w);
  }

  lemma SameDriving(v: World, w: World)
    requires v.status == w.status && v.funnel == w.funnel && v.population == w.population
    requires v.evaluations == w.evaluations
    ensures Driving(v) == Driving(w)
  {
    assert Missing(v) == Missing(w) && Undone(v) == Undone(w) && Pending(v) == Pending(w);
  }

  /** A phase change sends what drives the phase it opens. */
  lemma AdvanceDriven(w: World, target: Status, message: Message)
    requires (target == Selecting && message == FinalizeRun) || (target == Scoring && message == ScoreRun)
    ensures Driven(TryAdvance(w, w.status, target, message))
  {
  }

  lemma SomeScreens(apps: set<AppId>)
    ensures apps != {} ==> Screens(apps) != {}
    ensures apps != {} ==> Deeps(apps) != {}
  {
    if apps != {} {
      var a :| a in apps;
      assert ScreenApplication(a) in Screens(apps) && DeepApplication(a) in Deeps(apps);
    }
  }

  lemma FewerScreens(a: set<AppId>, b: set<AppId>)
    requires a <= b
    ensures Screens(a) <= Screens(b) && Deeps(a) <= Deeps(b)
  {
  }

  // ----- every delivery leaves the run driven -----

  lemma StartCases(w: World, memo: map<AppId, Evaluation>, knockedOut: set<AppId>, batchId: nat)
    requires w.status == Queued
    ensures
      var started, pending := Started(w, memo), w.population - memo.Keys;
      AfterRunStart(w, memo, knockedOut, batchId, false)
      == if w.mode == Batch then AfterLightBatch(started, pending, knockedOut, batchId, false)
         else if pending == {} then TryAdvance(started, Screening, Selecting, FinalizeRun)
         else Send(started, Screens(pending))
  {
    hide Started, AfterLightBatch, TryAdvance, Send, Screens;
  }

  lemma LateStartDriven(w: World, memo: map<AppId, Evaluation>, knockedOut: set<AppId>, batchId: nat)
    requires w.status != Queued && Driven(w)
    ensures Driven(AfterRunStart(w, memo, knockedOut, batchId, false))
  {
    hide Driven;
    LateStart(w, memo, knockedOut, batchId, false);
  }

  lemma RunStartDriven(w: World, memo: map<AppId, Evaluation>, knockedOut: set<AppId>, batchId: nat)
    requires Inv(w) && memo.Keys <= w.population && Driven(w)
    ensures Driven(AfterRunStart(w, memo, knockedOut, batchId, false))
  {
    hide Inv, Started, Driven, AfterRunStart, AfterLightBatch, Screens, TryAdvance, Send;
    if w.status == Queued {
      StartCases(w, memo, knockedOut, batchId);
      StartedFacts(w, memo);
      var started, pending := Started(w, memo), w.population - memo.Keys;
      if w.mode == Batch {
        LightBatchDriven(started, pending, knockedOut, batchId);
      } else if pending == {} {
        AdvanceDriven(started, Selecting, FinalizeRun);
      } else {
        ScreensDriven(started, pending);
      }
    } else {
      LateStartDriven(w, memo, knockedOut, batchId);
    }
  }

  lemma LightBatchDriven(w: World, pending: set<AppId>, knockedOut: set<AppId>, batchId: nat)
    requires w.status == Screening
    ensures Driven(AfterLightBatch(w, pending, knockedOut, batchId, false))
  {
    hide Rows;
    var stored := w.(evaluations := w.evaluations + Rows(knockedOut, KNOCKOUT_ROW));
    AdvanceDriven(stored, Selecting, FinalizeRun);
  }

  lemma ScreensDriven(w: World, pending: set<AppId>)
    requires w.status == Screening && w.funnel.light.None? && pending == Missing(w) && pending != {}
    ensures Driven(Send(w, Screens(pending)))
  {
    SomeScreens(pending);
    SameDriving(Send(w, Screens(pending)), w);
    hide Screens, Missing;
  }

  lemma CommitDriven(w: World, app: AppId, stage: StageReached)
    requires Inv(w) && CommitLight(app) in w.sent && Driven(w)
    ensures Driven(AfterCommitInsert(w, app, stage, false))
  {
    if app !in w.evaluations {
      var stored := w.(evaluations := w.evaluations[app := Evaluation(stage, NoDeep)]);
      NewcomerIsScreened(w, app);
      hide Inv;
      if w.status == Screening {
        StoredDriven(w, stored);
      } else {
        assert Driving(stored) == {};
      }
    } else {
      FinishDriven(w);
    }
  }

  /** A row is still missing only while screening, unless the run failed. */
  lemma NewcomerIsScreened(w: World, app: AppId)
    requires Inv(w) && CommitLight(app) in w.sent && app !in w.evaluations
    ensures app in w.population && (w.status == Screening || w.status == Failed)
    ensures w.status == Screening ==> w.funnel.total == |w.population| && w.evaluations.Keys <= w.population
  {
  }

  lemma StoredDriven(w: World, stored: World)
    requires w.status == Screening && w.funnel.total == |w.population| && Driven(w)
    requires stored == w.(evaluations := stored.evaluations)
    requires w.evaluations.Keys <= stored.evaluations.Keys <= w.population
    ensures Driven(MaybeFinishLight(stored))
  {
    FewerScreens(Missing(stored), Missing(w));
    SomeScreens(Missing(stored));
    if |stored.evaluations| >= stored.funnel.total {
      AdvanceDriven(stored, Selecting, FinalizeRun);
    } else {
      NoneMissing(stored);
    }
  }

  lemma NoneMissing(w: World)
    requires w.evaluations.Keys <= w.population
    ensures Missing(w) == {} ==> |w.evaluations| == |w.population|
  {
    assert |w.evaluations| == |w.evaluations.Keys|;
    if Missing(w) == {} {
      NothingLeft(w.population, w.evaluations.Keys);
      assert w.evaluations.Keys == w.population;
    }
  }

  lemma FinishDriven(w: World)
    requires Driven(w)
    ensures Driven(MaybeFinishLight(w)) && Driven(MaybeFinishDeep(w))
  {
    hide Driven;
    if w.status == Screening {
      AdvanceDriven(w, Selecting, FinalizeRun);
    }
    if w.status == DeepAnalysis {
      AdvanceDriven(w, Scoring, ScoreRun);
    }
  }

  lemma FinalizeDriven(w: World, selected: seq<AppId>, batchId: nat)
    requires Inv(w) && Driven(w)
    ensures Driven(AfterFinalize(w, selected, batchId, Survives))
  {
    if w.status == Selecting {
      DeepIsNone(w);
      hide Inv;
      var chosen := w.(funnel := w.funnel.(deepPending := selected));
      if selected == [] {
        AdvanceDriven(chosen, Scoring, ScoreRun);
      } else {
        var advanced := TryAdvance(chosen, Selecting, DeepAnalysis, Noop);
        assert selected[0] in Pending(advanced);
        if w.mode == Batch {
          DeepBatchDriven(advanced, batchId);
        } else {
          DeepsDriven(advanced);
        }
      }
    }
  }

  lemma DeepIsNone(w: World)
    requires Inv(w) && w.status == Selecting
    ensures w.funnel.deep.None?
  {
  }

  lemma DeepBatchDriven(w: World, batchId: nat)
    requires w.status == DeepAnalysis
    ensures Driven(AfterDeepBatch(w, batchId))
  {
    AdvanceDriven(w, Scoring, ScoreRun);
    hide DeepDone, Pending, Undone;
  }

  lemma DeepsDriven(w: World)
    requires w.status == DeepAnalysis && w.funnel.deep.None? && Pending(w) != {}
    ensures Driven(Send(w, Deeps(Pending(w))))
  {
    SameDriving(Send(w, Deeps(Pending(w))), w);
    SomeScreens(Pending(w));
    SomeScreens(Undone(w));
    FewerScreens(Undone(w), Pending(w));
    hide Deeps, Pending, DeepDone;
  }

  lemma DeepDriven(w: World, app: AppId, failed: bool)
    requires Driven(w)
    ensures Driven(AfterDeep(w, app, failed, false))
  {
    if w.status == DeepAnalysis {
      if app in w.evaluations && w.evaluations[app].stage != Deep {
        var stored := w.(evaluations := w.evaluations[app := Deepened(w.evaluations[app], failed)]);
        assert DeepDone(w) <= DeepDone(stored);
        DeepStoredDriven(w, stored);
      } else {
        FinishDriven(w);
      }
    }
  }

  lemma DeepStoredDriven(w: World, stored: World)
    requires w.status == DeepAnalysis && Driven(w)
    requires stored == w.(evaluations := stored.evaluations) && DeepDone(w) <= DeepDone(stored)
    ensures Driven(MaybeFinishDeep(stored))
  {
    assert Pending(stored) == Pending(w);
    hide DeepDone, Pending;
    if Pending(stored) <= DeepDone(stored) {
      AdvanceDriven(stored, Scoring, ScoreRun);
    } else {
      FewerScreens(Undone(stored), Undone(w));
      SomeScreens(Undone(stored));
      SomethingLeft(Pending(stored), DeepDone(stored));
    }
  }

  lemma PollDriven(w: World, stage: BatchStage, id: nat, ended: bool, failures: set<AppId>)
    requires Inv(w) && PollBatch(stage, id) in w.sent && id in w.batches && Driven(w)
    ensures Driven(AfterPoll(w, stage, id, ended, failures, false))
  {
    if w.status == WaitStatus(stage) {
      if ended {
        hide DrainLight, DrainDeep, Driven, Inv;
        AdvanceDriven(w.(evaluations := DrainLight(w.evaluations, w.batches[id])), Selecting, FinalizeRun);
        AdvanceDriven(w.(evaluations := DrainDeep(w.evaluations, w.batches[id], failures)), Scoring, ScoreRun);
      } else {
        EntryOnRecord(w, stage, id);
        hide Inv;
        UnfinishedDriven(w, stage, id);
      }
    }
  }

  lemma UnfinishedDriven(w: World, stage: BatchStage, id: nat)
    requires w.status == WaitStatus(stage) && Polled(EntryOf(w.funnel, stage), id).id == id
    ensures Driven(AfterUnfinishedPoll(w, stage, id))
  {
    hide Missing, Undone, Screens, Deeps;
  }

  lemma RecoverDriven(w: World)
    requires Driven(w)
    ensures Driven(AfterRecover(w))
  {
    hide Driven, Reissued;
    SendDriven(w, Reissued(w));
    FinishDriven(Send(w, Reissued(w)));
  }

  lemma StepDriven(w: World, e: Event)
    requires Inv(w) && Enabled(w, e) && Survived(e) && Driven(w)
    ensures Driven(Step(w, e))
  {
    hide Inv, Driven, AfterRunStart, AfterCommitInsert, AfterFinalize, AfterDeep, AfterPoll, AfterRecover;
    match e
    case DeliverRunStart(memo, knockedOut, batchId, dies) => RunStartDriven(w, memo, knockedOut, batchId);
    case CheckExisting(app) => SendDriven(w, {CommitLight(app)});
    case CommitInsert(app, stage, dies) => CommitDriven(w, app, stage);
    case DeliverFinalize(selected, batchId, death) => FinalizeDriven(w, selected, batchId);
    case DeliverDeep(app, failed, dies) => DeepDriven(w, app, failed);
    case DeliverPoll(stage, id, ended, failures, dies) => PollDriven(w, stage, id, ended, failures);
    case DeliverScore => ScoreDriven(w);
    case Recover => RecoverDriven(w);
  }

  lemma ScoreDriven(w: World)
    requires Driven(w)
    ensures Driven(AfterScore(w))
  {
  }

  lemma FreshDriven(w: World)
    requires Fresh(w)
    ensures Driven(w)
  {
  }

  lemma {:induction false} RunDriven(w: World, events: seq<Event>)
    requires Inv(w) && Driven(w) && Executable(w, events)
    requires forall i :: 0 <= i < |events| ==> Survived(events[i])
    ensures Driven(Execute(w, events))
    decreases |events|
  {
    hide Inv, Driven, Step, Enabled, Survived;
    if events != [] {
      StepInv(w, events[0]);
      StepDriven(w, events[0]);
      RunDriven(Step(w, events[0]), events[1..]);
    }
  }

  /**
   While no worker stops halfway, an unfinished run always has a message on its way whose delivery takes it
   on: nothing is left for recovery to re-issue, so recovering a healthy run only repeats messages.
   */
  lemma HealthyRunDrivesItself(w: World, events: seq<Event>)
    requires Fresh(w) && Executable(w, events) && w.config.pollInterval > 0
    requires forall i :: 0 <= i < |events| ==> Survived(events[i])
    ensures
      var v := Execute(w, events);
      && Reissued(v) <= v.sent
      && (Active(v.status) ==> exists m :: m in v.sent && m in Driving(v))
      && forall m, e :: m in Driving(v) && Completes(m, e) && Enabled(v, e) && Survived(e) ==> Closer(Step(v, e), v)
  {
    FreshInv(w);
    FreshDriven(w);
    ExecuteInv(w, events);
    RunDriven(w, events);
    var v := Execute(w, events);
    hide Inv, Fresh, Execute, Executable, Step, Enabled, Closer;
    ReissuedDrives(v);
    forall m, e | m in Driving(v) && Completes(m, e) && Enabled(v, e) && Survived(e)
      ensures Closer(Step(v, e), v)
    {
      DrivingIsProductive(v, m, e);
    }
    if Active(v.status) {
      var m :| m in Driving(v);
      assert m in v.sent;
    }
  }

  lemma ReissuedDrives(w: World)
    ensures Reissued(w) <= Driving(w)
  {
  }
}
