/** What every reachable state of a run keeps, for any loss, repetition or reordering of messages. */
module RunSafety {
  import opened Applications
  import opened Wrappers
  import opened RunModel
  import opened RunHealth
  import opened RunSteps
  import opened Sets

  predicate PastScreening(status: Status) {
    status == Selecting || status == DeepAnalysis || status == Scoring || status == Complete
  }

  /** Exactly one stored evaluation per application of the population, once screening is over. */
  ghost predicate PopulationSafe(w: World) {
    && w.evaluations.Keys <= w.population
    && (PastScreening(w.status) ==> w.evaluations.Keys == w.population)
  }

  ghost predicate DeepSafe(w: World) {
    && (w.status == DeepAnalysis || w.status == Scoring || w.status == Complete ==>
          Pending(w) <= w.evaluations.Keys)
    && (w.status == Scoring || w.status == Complete ==> Pending(w) <= DeepDone(w))
  }

  /** A run only fails by polling one of its batches past the wait budget. */
  ghost predicate Exhausted(w: World, entry: Option<BatchEntry>) {
    entry.Some? && entry.value.polls * w.config.pollInterval >= w.config.maxWait
  }

  ghost predicate FailureSafe(w: World) {
    w.status == Failed ==> Exhausted(w, w.funnel.light) || Exhausted(w, w.funnel.deep)
  }

  /** Nothing has happened before the start message is delivered. */
  ghost predicate QueuedSafe(w: World) {
    w.status == Queued ==> w.evaluations == map[] && w.sent == {RunStart} && w.funnel.light.None?
  }

  ghost predicate TotalSafe(w: World) {
    w.status != Queued ==> w.funnel.total == |w.population|
  }

  ghost predicate MessagesSafe(w: World) {
    forall m :: m in w.sent ==>
      match m
      case ScreenApplication(a) => a in w.population
      case CommitLight(a) => a in w.population
      case _ => true
  }

  /** A light batch in flight covers whatever screening still lacks. */
  ghost predicate LightBatchSafe(w: World) {
    && (forall id :: PollBatch(LightBatch, id) in w.sent ==>
          && id in w.batches && w.batches[id] <= w.population
          && w.funnel.light.Some? && w.funnel.light.value.id == id
          && w.population <= w.evaluations.Keys + w.batches[id])
    && (w.funnel.light.Some? ==> PollBatch(LightBatch, w.funnel.light.value.id) in w.sent)
  }

  /** A deep batch in flight covers whatever the deep phase still lacks. */
  ghost predicate DeepBatchSafe(w: World) {
    && (forall id :: PollBatch(DeepBatch, id) in w.sent ==>
          && id in w.batches
          && w.funnel.deep.Some? && w.funnel.deep.value.id == id
          && Pending(w) <= DeepDone(w) + w.batches[id])
    && (w.funnel.deep.Some? ==> PollBatch(DeepBatch, w.funnel.deep.value.id) in w.sent)
    && (w.status == Queued || w.status == Screening || w.status == Selecting ==> w.funnel.deep.None?)
  }

  ghost predicate Inv(w: World) {
    && PopulationSafe(w) && DeepSafe(w) && FailureSafe(w)
    && QueuedSafe(w) && TotalSafe(w) && MessagesSafe(w)
    && LightBatchSafe(w) && DeepBatchSafe(w)
  }

  lemma FreshInv(w: World)
    requires Fresh(w)
    ensures Inv(w)
  {
  }

  // ----- counting rows is the same as comparing sets -----

  /** The completion test of screening: as many rows as the population means one for each of it. */
  lemma CountedAll(w: World)
    requires PopulationSafe(w) && w.funnel.total == |w.population|
    ensures |w.evaluations| >= w.funnel.total <==> w.evaluations.Keys == w.population
  {
    assert |w.evaluations| == |w.evaluations.Keys|;
    SubsetSize(w.evaluations.Keys, w.population);
  }

  // ----- the ways a task changes the state -----

  ghost predicate Harmless(w: World, message: Message) {
    match message
    case ScreenApplication(a) => a in w.population
    case CommitLight(a) => a in w.population
    case PollBatch(_, _) => message in w.sent
    case _ => true
  }

  lemma SendInv(w: World, messages: set<Message>)
    requires Inv(w) && w.status != Queued
    requires forall m :: m in messages ==> Harmless(w, m)
    ensures Inv(Send(w, messages))
  {
    var s := Send(w, messages);
    assert Pending(s) == Pending(w) && DeepDone(s) == DeepDone(w);
    hide DeepDone, Pending, Exhausted;
    assert MessagesSafe(s) && LightBatchSafe(s) && DeepBatchSafe(s);
  }

  lemma StoreInv(w: World, rows: map<AppId, Evaluation>)
    requires Inv(w) && w.status != Queued
    requires w.evaluations.Keys <= rows.Keys <= w.population
    requires forall a :: a in w.evaluations && w.evaluations[a].stage == Deep ==> rows[a].stage == Deep
    ensures Inv(w.(evaluations := rows))
  {
    var s := w.(evaluations := rows);
    assert DeepDone(w) <= DeepDone(s);
    assert PopulationSafe(s) && DeepSafe(s) && LightBatchSafe(s) && DeepBatchSafe(s);
  }

  lemma AdvanceInv(w: World, target: Status, message: Message)
    requires Inv(w) && Harmless(w, message)
    requires w.status == Screening && target == Selecting && w.evaluations.Keys == w.population
    ensures Inv(TryAdvance(w, w.status, target, message))
  {
    SendInv(w, {message});
  }

  lemma ScoringInv(w: World)
    requires Inv(w) && w.evaluations.Keys == w.population
    requires w.status == Selecting || w.status == DeepAnalysis
    requires Pending(w) <= DeepDone(w)
    ensures Inv(TryAdvance(w, w.status, Scoring, ScoreRun))
  {
    SendInv(w, {ScoreRun});
  }

  lemma MaybeFinishLightInv(w: World)
    requires Inv(w)
    ensures Inv(MaybeFinishLight(w))
  {
    if w.status == Screening {
      CountedAll(w);
      if w.evaluations.Keys == w.population {
        AdvanceInv(w, Selecting, FinalizeRun);
      }
    }
  }

  lemma MaybeFinishDeepInv(w: World)
    requires Inv(w)
    ensures Inv(MaybeFinishDeep(w))
  {
    if w.status == DeepAnalysis && Pending(w) <= DeepDone(w) {
      ScoringInv(w);
    }
  }

  // ----- one lemma per task -----

  lemma TotalIsPopulation(population: set<AppId>, memo: map<AppId, Evaluation>)
    requires memo.Keys <= population
    ensures FunnelTotal(population, memo) == |population|
  {
    assert |memo| == |memo.Keys|;
    assert (population - memo.Keys) + memo.Keys == population;
  }

  lemma StartedFacts(w: World, memo: map<AppId, Evaluation>)
    requires Inv(w) && w.status == Queued && memo.Keys <= w.population
    ensures
      var s := Started(w, memo);
      && s.status == Screening && s.mode == w.mode && s.population == w.population && s.batches == w.batches
      && s.evaluations == memo && s.sent == {RunStart}
      && s.funnel == Funnel(|w.population|, [], None, None)
  {
    hide Inv, FunnelTotal;
    TotalIsPopulation(w.population, memo);
    NothingStored(w);
    NothingAdded(memo);
  }

  lemma NothingAdded(memo: map<AppId, Evaluation>)
    ensures map[] + memo == memo
  {
  }

  lemma NothingStored(w: World)
    requires Inv(w) && w.status == Queued
    ensures w.evaluations == map[] && w.sent == {RunStart} && w.funnel.light.None? && w.funnel.deep.None?
  {
  }

  lemma StartedInv(w: World, memo: map<AppId, Evaluation>)
    requires Inv(w) && w.status == Queued && memo.Keys <= w.population
    ensures Inv(Started(w, memo))
  {
    StartedFacts(w, memo);
    hide Inv, Started;
    OpenedInv(Started(w, memo));
  }

  /** Screening has just opened on copied rows, and nothing but the start message has been sent. */
  lemma OpenedInv(s: World)
    requires s.status == Screening && s.evaluations.Keys <= s.population
    requires s.sent == {RunStart} && s.funnel == Funnel(|s.population|, [], None, None)
    ensures Inv(s)
  {
    assert forall m :: m in s.sent ==> m == RunStart;
  }

  lemma SubmitLightInv(w: World, requests: set<AppId>, batchId: nat)
    requires Inv(w) && w.status == Screening && w.funnel.light.None?
    requires requests == w.population - w.evaluations.Keys && batchId !in w.batches
    ensures Inv(SubmitLight(w, requests, batchId))
  {
    var s := SubmitLight(w, requests, batchId);
    assert forall id :: PollBatch(LightBatch, id) in s.sent ==> id == batchId;
    assert s.population <= s.evaluations.Keys + s.batches[batchId];
    assert LightBatchSafe(s);
    assert DeepBatchSafe(s);
  }

  lemma LightBatchInv(w: World, pending: set<AppId>, knockedOut: set<AppId>, batchId: nat, dies: bool)
    requires Inv(w) && w.status == Screening && w.funnel.light.None?
    requires pending == w.population - w.evaluations.Keys && knockedOut <= pending
    requires batchId !in w.batches
    ensures Inv(AfterLightBatch(w, pending, knockedOut, batchId, dies))
  {
    var rows := w.evaluations + Rows(knockedOut, KNOCKOUT_ROW);
    assert rows.Keys == w.evaluations.Keys + knockedOut;
    StoreInv(w, rows);
    var stored := w.(evaluations := rows);
    var requests := pending - knockedOut;
    assert requests == stored.population - rows.Keys;
    if !dies && requests == {} {
      NothingLeft(stored.population, rows.Keys);
      AdvanceInv(stored, Selecting, FinalizeRun);
    } else if !dies {
      SubmitLightInv(stored, requests, batchId);
    }
  }

  lemma DispatchInv(w: World, pending: set<AppId>)
    requires Inv(w) && w.status == Screening && pending == w.population - w.evaluations.Keys
    ensures pending == {} ==> Inv(TryAdvance(w, Screening, Selecting, FinalizeRun))
    ensures Inv(Send(w, Screens(pending)))
  {
    if pending == {} {
      NothingLeft(w.population, w.evaluations.Keys);
      AdvanceInv(w, Selecting, FinalizeRun);
    }
    SendInv(w, Screens(pending));
  }

  lemma RunStartInv(w: World, memo: map<AppId, Evaluation>, knockedOut: set<AppId>, batchId: nat, dies: bool)
    requires Inv(w) && Enabled(w, DeliverRunStart(memo, knockedOut, batchId, dies))
    ensures Inv(AfterRunStart(w, memo, knockedOut, batchId, dies))
  {
    if w.status == Queued {
      var started := Started(w, memo);
      var pending := w.population - memo.Keys;
      hide Inv, Started, AfterLightBatch, TryAdvance, Send, Screens;
      StartedFacts(w, memo);
      StartedInv(w, memo);
      if w.mode == Batch {
        LightBatchInv(started, pending, knockedOut, batchId, dies);
      } else {
        DispatchInv(started, pending);
      }
    }
  }

  lemma CheckExistingInv(w: World, app: AppId)
    requires Inv(w) && Enabled(w, CheckExisting(app))
    ensures Inv(AfterCheckExisting(w, app))
  {
    if w.status == Screening || w.status == Selecting {
      SendInv(w, {CommitLight(app)});
    }
  }

  lemma CommitInsertInv(w: World, app: AppId, stage: StageReached, dies: bool)
    requires Inv(w) && Enabled(w, CommitInsert(app, stage, dies))
    ensures Inv(AfterCommitInsert(w, app, stage, dies))
  {
    if app !in w.evaluations {
      StoreInv(w, w.evaluations[app := Evaluation(stage, NoDeep)]);
      MaybeFinishLightInv(w.(evaluations := w.evaluations[app := Evaluation(stage, NoDeep)]));
    }
    MaybeFinishLightInv(w);
  }

  lemma ChosenInv(w: World, selected: seq<AppId>)
    requires Inv(w) && w.status == Selecting && Selectable(w, selected)
    ensures Inv(w.(funnel := w.funnel.(deepPending := selected)))
  {
  }

  lemma DeepStartInv(w: World)
    requires Inv(w) && w.status == Selecting && Pending(w) <= w.evaluations.Keys
    ensures Inv(TryAdvance(w, Selecting, DeepAnalysis, Noop))
  {
    SendInv(w, {Noop});
  }

  lemma DeepBatchInv(w: World, batchId: nat)
    requires Inv(w) && w.status == DeepAnalysis && w.funnel.deep.None? && batchId !in w.batches
    ensures Inv(AfterDeepBatch(w, batchId))
  {
    var requests := Pending(w) * w.evaluations.Keys - DeepDone(w);
    if requests == {} {
      forall a | a in Pending(w)
        ensures a in DeepDone(w)
      {
        assert a in w.evaluations.Keys && a !in requests;
      }
      ScoringInv(w);
    } else {
      var s := SubmitDeep(w, requests, batchId);
      assert forall id :: PollBatch(DeepBatch, id) in s.sent ==> id == batchId;
      assert Pending(s) <= DeepDone(s) + s.batches[batchId];
      assert LightBatchSafe(s);
      assert DeepBatchSafe(s);
    }
  }

  lemma FinalizeInv(w: World, selected: seq<AppId>, batchId: nat, death: FinalizeDeath)
    requires Inv(w) && Enabled(w, DeliverFinalize(selected, batchId, death))
    ensures Inv(AfterFinalize(w, selected, batchId, death))
  {
    if w.status == Selecting {
      ChosenInv(w, selected);
      var chosen := w.(funnel := w.funnel.(deepPending := selected));
      if death != BeforeAdvance && selected == [] {
        ScoringInv(chosen);
      } else if death != BeforeAdvance {
        DeepStartInv(chosen);
        var advanced := TryAdvance(chosen, Selecting, DeepAnalysis, Noop);
        if death != AfterAdvance && w.mode == Batch {
          DeepBatchInv(advanced, batchId);
        } else if death != AfterAdvance {
          SendInv(advanced, Deeps(Pending(advanced)));
        }
      }
    }
  }

  lemma DeepInv(w: World, app: AppId, failed: bool, dies: bool)
    requires Inv(w) && Enabled(w, DeliverDeep(app, failed, dies))
    ensures Inv(AfterDeep(w, app, failed, dies))
  {
    if w.status == DeepAnalysis {
      if app !in w.evaluations || w.evaluations[app].stage == Deep {
        MaybeFinishDeepInv(w);
      } else {
        var rows := w.evaluations[app := Deepened(w.evaluations[app], failed)];
        StoreInv(w, rows);
        MaybeFinishDeepInv(w.(evaluations := rows));
      }
    }
  }

  lemma CountedInv(w: World, stage: BatchStage, entry: BatchEntry)
    requires Inv(w) && w.status == WaitStatus(stage)
    requires EntryOf(w.funnel, stage).Some? && EntryOf(w.funnel, stage).value.id == entry.id
    ensures Inv(w.(funnel := WithEntry(w.funnel, stage, entry)))
  {
    var v := w.(funnel := WithEntry(w.funnel, stage, entry));
    assert Pending(v) == Pending(w) && DeepDone(v) == DeepDone(w);
  }

  lemma UnfinishedPollInv(w: World, stage: BatchStage, id: nat)
    requires Inv(w) && PollBatch(stage, id) in w.sent && w.status == WaitStatus(stage)
    ensures Inv(AfterUnfinishedPoll(w, stage, id))
  {
    var entry := Polled(EntryOf(w.funnel, stage), id);
    var counted := w.(funnel := WithEntry(w.funnel, stage, entry));
    EntryOnRecord(w, stage, id);
    CountedInv(w, stage, entry);
    if entry.polls * w.config.pollInterval < w.config.maxWait {
      SendInv(counted, {PollBatch(stage, id)});
    } else {
      GiveUpInv(counted, stage);
    }
    hide Inv, Polled, WithEntry, EntryOf;
  }

  lemma EntryOnRecord(w: World, stage: BatchStage, id: nat)
    requires Inv(w) && PollBatch(stage, id) in w.sent
    ensures EntryOf(w.funnel, stage).Some? && EntryOf(w.funnel, stage).value.id == id
    ensures Polled(EntryOf(w.funnel, stage), id).id == id
  {
    hide PopulationSafe, DeepSafe, MessagesSafe;
  }

  lemma GiveUpInv(w: World, stage: BatchStage)
    requires Inv(w) && w.status == WaitStatus(stage) && Exhausted(w, EntryOf(w.funnel, stage))
    ensures Inv(w.(status := Failed))
  {
    hide Exhausted;
    var v := w.(status := Failed);
    assert Pending(v) == Pending(w) && DeepDone(v) == DeepDone(w);
    assert Exhausted(v, EntryOf(v.funnel, stage)) by {
      SameExhausted(v, w, EntryOf(w.funnel, stage));
    }
  }

  lemma SameExhausted(v: World, w: World, entry: Option<BatchEntry>)
    requires v.config == w.config
    ensures Exhausted(v, entry) <==> Exhausted(w, entry)
  {
  }

  lemma DrainedLightInv(w: World, id: nat, dies: bool)
    requires Inv(w) && PollBatch(LightBatch, id) in w.sent && w.status == Screening
    ensures Inv(AfterPoll(w, LightBatch, id, true, {}, dies))
  {
    var rows := DrainLight(w.evaluations, w.batches[id]);
    assert rows.Keys == w.evaluations.Keys + w.batches[id];
    StoreInv(w, rows);
    if !dies {
      AdvanceInv(w.(evaluations := rows), Selecting, FinalizeRun);
    }
  }

  lemma DrainedDeepInv(w: World, id: nat, failures: set<AppId>, dies: bool)
    requires Inv(w) && PollBatch(DeepBatch, id) in w.sent && w.status == DeepAnalysis
    ensures Inv(AfterPoll(w, DeepBatch, id, true, failures, dies))
  {
    var rows := DrainDeep(w.evaluations, w.batches[id], failures);
    StoreInv(w, rows);
    if !dies {
      ScoringInv(w.(evaluations := rows));
    }
  }

  lemma PollInv(w: World, stage: BatchStage, id: nat, ended: bool, failures: set<AppId>, dies: bool)
    requires Inv(w) && Enabled(w, DeliverPoll(stage, id, ended, failures, dies))
    ensures Inv(AfterPoll(w, stage, id, ended, failures, dies))
  {
    if w.status == WaitStatus(stage) {
      if !ended {
        UnfinishedPollInv(w, stage, id);
      } else if stage == LightBatch {
        DrainedLightInv(w, id, dies);
      } else {
        DrainedDeepInv(w, id, failures, dies);
      }
    }
  }

  lemma RecoverInv(w: World)
    requires Inv(w)
    ensures Inv(AfterRecover(w))
  {
    if w.status == Queued {
      assert Send(w, {RunStart}) == w;
    } else {
      SendInv(w, Reissued(w));
      MaybeFinishLightInv(Send(w, Reissued(w)));
      MaybeFinishDeepInv(Send(w, Reissued(w)));
    }
  }

  lemma StepInv(w: World, e: Event)
    requires Inv(w) && Enabled(w, e)
    ensures Inv(Step(w, e))
  {
    match e
    case DeliverRunStart(memo, knockedOut, batchId, dies) => RunStartInv(w, memo, knockedOut, batchId, dies);
    case CheckExisting(app) => CheckExistingInv(w, app);
    case CommitInsert(app, stage, dies) => CommitInsertInv(w, app, stage, dies);
    case DeliverFinalize(selected, batchId, death) => FinalizeInv(w, selected, batchId, death);
    case DeliverDeep(app, failed, dies) => DeepInv(w, app, failed, dies);
    case DeliverPoll(stage, id, ended, failures, dies) => PollInv(w, stage, id, ended, failures, dies);
    case DeliverScore =>
    case Recover => RecoverInv(w);
  }

  // ----- whole runs -----

  lemma {:induction false} ExecuteInv(w: World, events: seq<Event>)
    requires Inv(w) && Executable(w, events)
    ensures Inv(Execute(w, events))
    decreases |events|
  {
    if events != [] {
      StepInv(w, events[0]);
      ExecuteInv(Step(w, events[0]), events[1..]);
    }
  }

  // ----- deep results and failure flags -----

  /** The run took the row over from an earlier run as it is. */
  ghost predicate Copied(events: seq<Event>, app: AppId, row: Evaluation) {
    exists i :: 0 <= i < |events| && events[i].DeliverRunStart? && app in events[i].memo && events[i].memo[app] == row
  }

  /** A row at Stage 5 carries a deep result or the failure flag, or was there before, or was copied at Stage 5. */
  ghost predicate DeepMarked(before: map<AppId, Evaluation>, after: map<AppId, Evaluation>, events: seq<Event>) {
    forall a :: a in after && after[a].stage == Deep && after[a].mark == NoDeep ==>
      (a in before && before[a] == after[a]) || Copied(events, a, after[a])
  }

  lemma RunStartMarks(w: World, memo: map<AppId, Evaluation>, knockedOut: set<AppId>, batchId: nat, dies: bool)
    ensures
      var after := AfterRunStart(w, memo, knockedOut, batchId, dies).evaluations;
      forall a :: a in after ==>
        || (a in w.evaluations && after[a] == w.evaluations[a]) || (a in memo && after[a] == memo[a])
        || after[a] == KNOCKOUT_ROW
  {
    RunStartStores(w, memo, knockedOut, batchId, dies);
    hide AfterRunStart;
  }

  /** run_start stores nothing, the copied rows, or those and the clean knockouts. */
  lemma RunStartStores(w: World, memo: map<AppId, Evaluation>, knockedOut: set<AppId>, batchId: nat, dies: bool)
    ensures
      var after := AfterRunStart(w, memo, knockedOut, batchId, dies).evaluations;
      || after == w.evaluations || after == w.evaluations + memo
      || after == w.evaluations + memo + Rows(knockedOut, KNOCKOUT_ROW)
  {
    LightBatchRows(Started(w, memo), w.population - memo.Keys, knockedOut, batchId, dies);
    hide AfterLightBatch, Rows, FunnelTotal;
  }

  lemma LightBatchRows(w: World, pending: set<AppId>, knockedOut: set<AppId>, batchId: nat, dies: bool)
    ensures AfterLightBatch(w, pending, knockedOut, batchId, dies).evaluations
         == w.evaluations + Rows(knockedOut, KNOCKOUT_ROW)
  {
  }

  lemma DrainsMark(rows: map<AppId, Evaluation>, results: set<AppId>, failures: set<AppId>)
    ensures DeepMarked(rows, DrainLight(rows, results), [])
    ensures DeepMarked(rows, DrainDeep(rows, results, failures), [])
  {
  }

  lemma StepMarks(w: World, e: Event)
    requires Enabled(w, e)
    ensures DeepMarked(w.evaluations, Step(w, e).evaluations, [e])
  {
    hide AfterFinalize, AfterRecover;
    match e
    case DeliverRunStart(memo, knockedOut, batchId, dies) =>
      RunStartMarks(w, memo, knockedOut, batchId, dies);
      hide AfterRunStart;
      assert [e][0] == e;
    case DeliverPoll(stage, id, ended, failures, dies) => DrainsMark(w.evaluations, w.batches[id], failures);
    case _ =>
  }

  lemma {:induction false} RunMarks(w: World, events: seq<Event>)
    requires Executable(w, events)
    ensures DeepMarked(w.evaluations, Execute(w, events).evaluations, events)
    decreases |events|
  {
    if events != [] {
      var next, end := Step(w, events[0]), Execute(w, events);
      StepMarks(w, events[0]);
      RunMarks(next, events[1..]);
      hide Step, Execute;
      forall a | a in end.evaluations && end.evaluations[a].stage == Deep && end.evaluations[a].mark == NoDeep
        ensures (a in w.evaluations && w.evaluations[a] == end.evaluations[a]) || Copied(events, a, end.evaluations[a])
      {
        CopiedLater(events, a, end.evaluations[a]);
      }
    }
  }

  lemma CopiedLater(events: seq<Event>, app: AppId, row: Evaluation)
    requires events != []
    ensures Copied([events[0]], app, row) || Copied(events[1..], app, row) ==> Copied(events, app, row)
  {
    if Copied([events[0]], app, row) {
      assert events[0].DeliverRunStart? && app in events[0].memo;
    } else if Copied(events[1..], app, row) {
      var i :| 0 <= i < |events| - 1 && events[1..][i].DeliverRunStart?
                && app in events[1..][i].memo && events[1..][i].memo[app] == row;
      assert events[i + 1] == events[1..][i];
    }
  }

  /**
   Safety of every run, whatever happens to the messages: population, deep phase and failure. Every row at
   Stage 5 carries a deep result or the failure flag, except one that was copied at Stage 5 without either.
   */
  lemma RunIsSafe(w: World, events: seq<Event>)
    requires Fresh(w) && Executable(w, events)
    ensures
      var end := Execute(w, events);
      && end.population == w.population
      && PopulationSafe(end) && DeepSafe(end) && FailureSafe(end)
      && forall a :: a in end.evaluations && end.evaluations[a].stage == Deep ==>
           || end.evaluations[a].mark == DeepResult || end.evaluations[a].mark == DeepAnalysisFailed
           || Copied(events, a, end.evaluations[a])
  {
    FreshInv(w);
    ExecuteInv(w, events);
    RunMarks(w, events);
  }

  function PhaseLeft(status: Status): nat {
    match status
    case Queued => 5
    case Screening => 4
    case Selecting => 3
    case DeepAnalysis => 2
    case Scoring => 1
    case Complete => 0
    case Failed => 0
  }

  /** A step leaves the phase alone or moves it forward. */
  lemma StepPhase(w: World, e: Event)
    requires Enabled(w, e)
    ensures Onward(w, Step(w, e))
  {
    hide AfterRunStart, AfterFinalize, AfterPoll, AfterDeep, AfterRecover, AfterCommitInsert, Onward;
    match e
    case DeliverRunStart(memo, knockedOut, batchId, dies) => RunStartPhase(w, memo, knockedOut, batchId, dies);
    case CheckExisting(app) => CheckPhase(w, app);
    case CommitInsert(app, stage, dies) => CommitPhase(w, app, stage, dies);
    case DeliverFinalize(selected, batchId, death) => FinalizePhase(w, selected, batchId, death);
    case DeliverDeep(app, failed, dies) => DeepPhase(w, app, failed, dies);
    case DeliverPoll(stage, id, ended, failures, dies) => PollPhase(w, stage, id, ended, failures, dies);
    case DeliverScore => ScorePhase(w);
    case Recover => RecoverPhase(w);
  }

  ghost predicate Onward(w: World, v: World) {
    v.status == w.status || PhaseLeft(v.status) < PhaseLeft(w.status)
  }

  lemma RunStartPhase(w: World, memo: map<AppId, Evaluation>, knockedOut: set<AppId>, batchId: nat, dies: bool)
    ensures Onward(w, AfterRunStart(w, memo, knockedOut, batchId, dies))
  {
  }

  lemma CheckPhase(w: World, app: AppId)
    ensures Onward(w, AfterCheckExisting(w, app))
  {
  }

  lemma CommitPhase(w: World, app: AppId, stage: StageReached, dies: bool)
    ensures Onward(w, AfterCommitInsert(w, app, stage, dies))
  {
  }

  lemma FinalizePhase(w: World, selected: seq<AppId>, batchId: nat, death: FinalizeDeath)
    ensures Onward(w, AfterFinalize(w, selected, batchId, death))
  {
  }

  lemma DeepPhase(w: World, app: AppId, failed: bool, dies: bool)
    ensures Onward(w, AfterDeep(w, app, failed, dies))
  {
  }

  lemma PollPhase(w: World, stage: BatchStage, id: nat, ended: bool, failures: set<AppId>, dies: bool)
    requires id in w.batches
    ensures Onward(w, AfterPoll(w, stage, id, ended, failures, dies))
  {
    hide DrainLight, DrainDeep, Polled;
  }

  lemma ScorePhase(w: World)
    ensures Onward(w, AfterScore(w))
  {
  }

  lemma RecoverPhase(w: World)
    ensures Onward(w, AfterRecover(w))
  {
  }

  lemma {:induction false} PhaseMonotone(w: World, events: seq<Event>)
    requires Executable(w, events)
    ensures Execute(w, events).status == w.status || PhaseLeft(Execute(w, events).status) < PhaseLeft(w.status)
    decreases |events|
  {
    if events != [] {
      StepPhase(w, events[0]);
      PhaseMonotone(Step(w, events[0]), events[1..]);
    }
  }

  /** Each phase change is won once: a status that a step has left is never seen again. */
  lemma EdgeWonOnce(w: World, e: Event, later: seq<Event>)
    requires Enabled(w, e) && Executable(Step(w, e), later)
    requires Step(w, e).status != w.status
    ensures Execute(Step(w, e), later).status != w.status
  {
    StepPhase(w, e);
    PhaseMonotone(Step(w, e), later);
  }

  /** Rows are never lost, only a row below Stage 5 changes, and it changes into a Stage 5 row. */
  ghost predicate RowsKept(before: map<AppId, Evaluation>, after: map<AppId, Evaluation>) {
    forall a :: a in before ==>
      && a in after
      && (after[a] == before[a]
          || (before[a].stage != Deep
              && (after[a] == Deepened(before[a], true) || after[a] == Deepened(before[a], false))))
  }

  lemma DrainsKeepRows(rows: map<AppId, Evaluation>, results: set<AppId>, failures: set<AppId>)
    ensures RowsKept(rows, DrainLight(rows, results))
    ensures RowsKept(rows, DrainDeep(rows, results, failures))
  {
  }

  lemma RunStartRows(w: World, memo: map<AppId, Evaluation>, knockedOut: set<AppId>, batchId: nat, dies: bool)
    requires QueuedSafe(w)
    ensures RowsKept(w.evaluations, AfterRunStart(w, memo, knockedOut, batchId, dies).evaluations)
  {
  }

  lemma CommitKeepsRows(w: World, app: AppId, stage: StageReached, dies: bool)
    ensures RowsKept(w.evaluations, AfterCommitInsert(w, app, stage, dies).evaluations)
  {
  }

  lemma DeepKeepsRows(w: World, app: AppId, failed: bool, dies: bool)
    ensures RowsKept(w.evaluations, AfterDeep(w, app, failed, dies).evaluations)
  {
  }

  lemma StepKeepsRows(w: World, e: Event)
    requires Inv(w) && Enabled(w, e)
    ensures RowsKept(w.evaluations, Step(w, e).evaluations)
  {
    match e
    case DeliverRunStart(memo, knockedOut, batchId, dies) => RunStartRows(w, memo, knockedOut, batchId, dies);
    case DeliverPoll(stage, id, ended, failures, dies) => DrainsKeepRows(w.evaluations, w.batches[id], failures);
    case CommitInsert(app, stage, dies) => CommitKeepsRows(w, app, stage, dies);
    case DeliverDeep(app, failed, dies) => DeepKeepsRows(w, app, failed, dies);
    case _ =>
  }

  /** Stage 5 is final: a deep row is the same row at the end of any run. */
  lemma {:induction false} RunKeepsRows(w: World, events: seq<Event>)
    requires Inv(w) && Executable(w, events)
    ensures RowsKept(w.evaluations, Execute(w, events).evaluations)
    decreases |events|
  {
    if events != [] {
      var next := Step(w, events[0]);
      StepInv(w, events[0]);
      StepKeepsRows(w, events[0]);
      RunKeepsRows(next, events[1..]);
      forall a | a in w.evaluations
        ensures a in Execute(w, events).evaluations
      {
        assert a in next.evaluations;
      }
    }
  }
}
