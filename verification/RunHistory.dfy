/** What each stored row tells about the run that wrote it. */
module RunHistory {
  import opened Wrappers
  import opened Applications
  import opened RunModel
  import opened RunHealth
  import opened RunSteps
  import opened RunSafety

  // ----- deep analysis: success and failure -----

  /** The delivery reports that deep analysis of the application failed for good. */
  predicate Fails(e: Event, app: AppId) {
    || (e.DeliverDeep? && e.app == app && e.failed)
    || (e.DeliverPoll? && app in e.failures)
  }

  /** The row is at Stage 5, flagged as failed or holding a deep result, as the delivery reported. */
  ghost predicate MarkedBy(row: Evaluation, failed: bool) {
    row.stage == Deep && row.mark == if failed then DeepAnalysisFailed else DeepResult
  }

  /** One deep delivery reaches exactly its own row, and a row that is deep already it leaves alone. */
  lemma DeepDeliveryMarks(w: World, app: AppId, failed: bool, dies: bool)
    requires w.status == DeepAnalysis && app in w.evaluations
    ensures
      var after := AfterDeep(w, app, failed, dies).evaluations;
      && after.Keys == w.evaluations.Keys
      && (forall a :: a in after && a != app ==> after[a] == w.evaluations[a])
      && (if w.evaluations[app].stage == Deep then after[app] == w.evaluations[app] else MarkedBy(after[app], failed))
  {
  }

  /** A drained deep batch reaches exactly the rows it was asked for that are not deep yet. */
  lemma DeepPollMarks(w: World, id: nat, failures: set<AppId>, dies: bool)
    requires w.status == DeepAnalysis && id in w.batches
    ensures
      var after := AfterPoll(w, DeepBatch, id, true, failures, dies).evaluations;
      && after.Keys == w.evaluations.Keys
      && (forall a :: a in after ==>
            if a in w.batches[id] && w.evaluations[a].stage != Deep then MarkedBy(after[a], a in failures)
            else after[a] == w.evaluations[a])
  {
  }

  /** Screening adds rows below Stage 5: light ones, and clean knockouts as such. */
  lemma LightPollStores(w: World, id: nat, failures: set<AppId>, dies: bool)
    requires w.status == Screening && id in w.batches
    ensures
      var after := AfterPoll(w, LightBatch, id, true, failures, dies).evaluations;
      && (forall a :: a in after <==> a in w.evaluations || a in w.batches[id])
      && (forall a :: a in after ==>
            if a in w.evaluations then after[a] == w.evaluations[a]
            else after[a].stage == Light && after[a].mark == NoDeep)
  {
  }

  lemma KnockoutsStored(w: World, memo: map<AppId, Evaluation>, knockedOut: set<AppId>, batchId: nat, dies: bool)
    requires Inv(w) && w.status == Queued && w.mode == Batch
    requires Enabled(w, DeliverRunStart(memo, knockedOut, batchId, dies))
    ensures
      var after := AfterRunStart(w, memo, knockedOut, batchId, dies).evaluations;
      && (forall a :: a in after <==> a in memo || a in knockedOut)
      && (forall a :: a in after ==>
            if a in memo then after[a] == memo[a] else after[a].stage == HardFilter && after[a].mark == NoDeep)
  {
    NothingStored(w);
    LightBatchRows(Started(w, memo), w.population - memo.Keys, knockedOut, batchId, dies);
    hide Inv, AfterLightBatch, FunnelTotal;
    assert forall a :: a in knockedOut ==> a !in memo;
  }

  /** Screening goes on to an insert exactly in the open phases and for somebody without a row. */
  lemma CheckAdmits(w: World, app: AppId)
    requires CommitLight(app) !in w.sent
    ensures
      var v := AfterCheckExisting(w, app);
      && (CommitLight(app) in v.sent <==> (w.status == Screening || w.status == Selecting) && app !in w.evaluations)
      && v == w.(sent := v.sent) && w.sent <= v.sent
  {
  }

  /** The insert adds its own row as given, without any deep result, unless there is one already. */
  lemma ScreeningStores(w: World, app: AppId, stage: StageReached, dies: bool)
    ensures
      var after := AfterCommitInsert(w, app, stage, dies).evaluations;
      && (forall a :: a in after <==> a in w.evaluations || a == app)
      && (forall a :: a in w.evaluations ==> after[a] == w.evaluations[a])
      && (app !in w.evaluations ==> after[app].stage == stage && after[app].mark == NoDeep)
  {
  }

  /** An interactive start stores the copied rows and nothing else, and asks for everybody else. */
  lemma StartFansOut(w: World, memo: map<AppId, Evaluation>, knockedOut: set<AppId>, batchId: nat, a: AppId)
    requires Inv(w) && w.status == Queued && w.mode == Interactive
    ensures
      var v := AfterRunStart(w, memo, knockedOut, batchId, false);
      && v.evaluations == memo
      && (ScreenApplication(a) in v.sent <==> a in w.population && a !in memo)
  {
    NothingStored(w);
    hide Inv, FunnelTotal;
    assert w.evaluations + memo == memo;
  }

  /** Interactive deep analysis asks for exactly those selected. */
  lemma DeepFansOut(w: World, selected: seq<AppId>, batchId: nat, a: AppId)
    requires w.status == Selecting && w.mode == Interactive && DeepApplication(a) !in w.sent
    ensures DeepApplication(a) in AfterFinalize(w, selected, batchId, Survives).sent <==> a in selected
  {
  }

  /** The light batch asks for exactly those who are neither copied nor knocked out, and starts with no poll. */
  lemma LightBatchAsks(w: World, memo: map<AppId, Evaluation>, knockedOut: set<AppId>, batchId: nat, a: AppId)
    requires Inv(w) && w.status == Queued && w.mode == Batch && batchId !in w.batches
    ensures
      var v := AfterRunStart(w, memo, knockedOut, batchId, false);
      var asked := batchId in v.batches && a in v.batches[batchId];
      && (asked <==> a in w.population && a !in memo && a !in knockedOut)
      && (asked ==> v.funnel.light == Some(BatchEntry(batchId, 0)) && PollBatch(LightBatch, batchId) in v.sent)
  {
    hide Inv, FunnelTotal, Rows;
    var requests := w.population - memo.Keys - knockedOut;
    assert a in requests <==> a in w.population && a !in memo && a !in knockedOut;
  }

  /** The deep batch asks for exactly those selected that have a row below Stage 5, and starts with no poll. */
  lemma DeepBatchAsks(w: World, selected: seq<AppId>, batchId: nat, a: AppId)
    requires w.status == Selecting && w.mode == Batch && batchId !in w.batches && selected != []
    ensures
      var v := AfterFinalize(w, selected, batchId, Survives);
      var asked := batchId in v.batches && a in v.batches[batchId];
      && (asked <==> a in selected && a in w.evaluations && w.evaluations[a].stage != Deep)
      && (asked ==> v.funnel.deep == Some(BatchEntry(batchId, 0)) && PollBatch(DeepBatch, batchId) in v.sent)
  {
    var chosen := TryAdvance(w.(funnel := w.funnel.(deepPending := selected)), Selecting, DeepAnalysis, Noop);
    var requests := Pending(chosen) * chosen.evaluations.Keys - DeepDone(chosen);
    assert a in requests <==> a in selected && a in w.evaluations && w.evaluations[a].stage != Deep;
  }

  /** An unfinished poll is put on record, and it is the last one exactly when the polls have used up the wait. */
  lemma GivesUpExactly(w: World, stage: BatchStage, id: nat, failures: set<AppId>, dies: bool)
    requires Inv(w) && w.status == WaitStatus(stage) && PollBatch(stage, id) in w.sent && id in w.batches
    ensures
      var v := AfterPoll(w, stage, id, false, failures, dies);
      && EntryOf(w.funnel, stage).Some? && EntryOf(v.funnel, stage).Some?
      && EntryOf(v.funnel, stage).value.polls == EntryOf(w.funnel, stage).value.polls + 1
      && (v.status == Failed <==> EntryOf(v.funnel, stage).value.polls * w.config.pollInterval >= w.config.maxWait)
  {
    EntryOnRecord(w, stage, id);
    hide Inv;
  }

  // ----- over whole runs -----

  ghost predicate Deepens(w: World, v: World, app: AppId) {
    && app in w.evaluations && w.evaluations[app].stage != Deep
    && app in v.evaluations && v.evaluations[app].stage == Deep
  }

  /** The step of a run that took the application's row to Stage 5. */
  ghost function DeepeningEvent(w: World, events: seq<Event>, app: AppId): Option<Event>
    requires Executable(w, events)
    decreases |events|
  {
    if events == [] then None
    else if Deepens(w, Step(w, events[0]), app) then Some(events[0])
    else DeepeningEvent(Step(w, events[0]), events[1..], app)
  }

  lemma StepDeepens(w: World, e: Event, app: AppId)
    requires Inv(w) && Enabled(w, e) && Deepens(w, Step(w, e), app)
    ensures MarkedBy(Step(w, e).evaluations[app], Fails(e, app))
  {
    hide AfterFinalize, AfterRecover;
    match e
    case DeliverRunStart(memo, knockedOut, batchId, dies) =>
      if w.status == Queued {
        NothingStored(w);
      }
    case DeliverDeep(a, failed, dies) =>
      if w.status == DeepAnalysis && a in w.evaluations {
        DeepDeliveryMarks(w, a, failed, dies);
      }
    case DeliverPoll(stage, id, ended, failures, dies) =>
      if ended && w.status == WaitStatus(stage) {
        if stage == DeepBatch {
          DeepPollMarks(w, id, failures, dies);
        } else {
          LightPollStores(w, id, failures, dies);
        }
      }
    case _ =>
  }

  /** A row that appears at Stage 5 was copied at Stage 5. */
  lemma AppearsDeep(w: World, e: Event, app: AppId)
    requires Enabled(w, e) && app in Step(w, e).evaluations && app !in w.evaluations
    ensures Step(w, e).evaluations[app].stage == Deep ==> Copied([e], app, Step(w, e).evaluations[app])
  {
    hide AfterFinalize, AfterRecover;
    match e
    case DeliverRunStart(memo, knockedOut, batchId, dies) =>
      RunStartMarks(w, memo, knockedOut, batchId, dies);
      hide AfterRunStart;
      assert [e][0] == e;
    case _ =>
  }

  lemma DeepStays(w: World, events: seq<Event>, app: AppId)
    requires Inv(w) && Executable(w, events) && app in w.evaluations && w.evaluations[app].stage == Deep
    ensures app in Execute(w, events).evaluations && Execute(w, events).evaluations[app] == w.evaluations[app]
  {
    RunKeepsRows(w, events);
    hide Execute, Executable, Inv;
  }

  lemma DeepIsNotDeepenedAgain(w: World, events: seq<Event>, app: AppId)
    requires Inv(w) && Executable(w, events) && app in w.evaluations && w.evaluations[app].stage == Deep
    ensures DeepeningEvent(w, events, app) == None
    decreases |events|
  {
    if events != [] {
      var next := Step(w, events[0]);
      StepInv(w, events[0]);
      StepKeepsRows(w, events[0]);
      hide Inv, Step, Enabled;
      DeepIsNotDeepenedAgain(next, events[1..], app);
    }
  }

  /**
   The flag tells the truth at the end of any run: a row the run took to Stage 5 carries the failure flag
   exactly when the delivery that took it there reported a failure, and a deep result exactly when it did not.
   A row at Stage 5 that the run did not take there was there before or was copied as it is.
   */
  lemma {:induction false} FlagsTellTheTruth(w: World, events: seq<Event>, app: AppId)
    requires Inv(w) && Executable(w, events) && app in Execute(w, events).evaluations
    ensures
      var row, cause := Execute(w, events).evaluations[app], DeepeningEvent(w, events, app);
      && (cause.Some? ==> MarkedBy(row, Fails(cause.value, app)))
      && (cause == None && row.stage == Deep ==>
            (app in w.evaluations && w.evaluations[app] == row) || Copied(events, app, row))
    decreases |events|
  {
    if events != [] {
      var e, next, row := events[0], Step(w, events[0]), Execute(w, events).evaluations[app];
      StepInv(w, e);
      StepKeepsRows(w, e);
      FirstStep(w, e, app);
      hide Inv, Step, Enabled, Execute;
      if app in next.evaluations && next.evaluations[app].stage == Deep {
        assert Execute(w, events) == Execute(next, events[1..]) by {
          ExecuteOn(w, events);
        }
        DeepStays(next, events[1..], app);
        DeepIsNotDeepenedAgain(next, events[1..], app);
      } else {
        ExecuteOn(w, events);
        FlagsTellTheTruth(next, events[1..], app);
      }
      CopiedLater(events, app, row);
    }
  }

  lemma ExecuteOn(w: World, events: seq<Event>)
    requires Executable(w, events) && events != []
    ensures Execute(w, events) == Execute(Step(w, events[0]), events[1..])
  {
  }

  lemma FirstStep(w: World, e: Event, app: AppId)
    requires Inv(w) && Enabled(w, e)
    ensures Deepens(w, Step(w, e), app) ==> MarkedBy(Step(w, e).evaluations[app], Fails(e, app))
    ensures app in Step(w, e).evaluations && app !in w.evaluations && Step(w, e).evaluations[app].stage == Deep ==>
              Copied([e], app, Step(w, e).evaluations[app])
  {
    hide Inv, Step, Enabled;
    if Deepens(w, Step(w, e), app) {
      StepDeepens(w, e, app);
    }
    if app in Step(w, e).evaluations && app !in w.evaluations {
      AppearsDeep(w, e, app);
    }
  }
}
