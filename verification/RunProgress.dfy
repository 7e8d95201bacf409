/** Recovery always makes progress, so a run that keeps being recovered ends. */
module RunProgress {
  import opened Applications
  import opened Wrappers
  import opened RunModel
  import opened RunHealth
  import opened RunSteps
  import opened RunSafety
  import opened Sets

  /** What is left of the wait budget of a batch, in seconds. */
  function Budget(config: Config, entry: Option<BatchEntry>): nat {
    match entry
    case None => 0
    case Some(e) =>
      var waited := e.polls * config.pollInterval;
      if waited < config.maxWait then config.maxWait - waited else 0
  }

  /** Work left inside the current phase. */
  function WorkLeft(w: World): nat {
    match w.status
    case Screening => |Missing(w)| + Budget(w.config, w.funnel.light)
    case DeepAnalysis => |Undone(w)| + Budget(w.config, w.funnel.deep)
    case _ => 0
  }

  /** The progress measure: phases first, then the work left in the phase. */
  ghost predicate Closer(v: World, w: World) {
    || PhaseLeft(v.status) < PhaseLeft(w.status)
    || (v.status == w.status && WorkLeft(v) < WorkLeft(w))
  }

  /** Nothing that the measure, or recovery, looks at has changed. */
  ghost predicate Same(v: World, w: World) {
    && v.status == w.status && v.config == w.config
    && (w.status == Screening ==> Missing(v) == Missing(w) && v.funnel.light == w.funnel.light)
    && (w.status == DeepAnalysis ==> Undone(v) == Undone(w) && v.funnel.deep == w.funnel.deep)
  }

  lemma SameWork(v: World, w: World)
    requires Same(v, w)
    ensures WorkLeft(v) == WorkLeft(w) && Reissued(v) == Reissued(w)
  {
    hide Missing, Undone, Budget, Screens, Deeps;
  }

  lemma StoreMissing(w: World, rows: map<AppId, Evaluation>)
    requires w.status == Screening && w.evaluations.Keys <= rows.Keys
    ensures
      var v := w.(evaluations := rows);
      Same(v, w) || (Closer(v, w) && Missing(v) < Missing(w))
  {
    var v := w.(evaluations := rows);
    assert Missing(v) <= Missing(w);
    SmallerSet(Missing(v), Missing(w));
  }

  lemma StoreUndone(w: World, rows: map<AppId, Evaluation>)
    requires w.status == DeepAnalysis && RowsKept(w.evaluations, rows)
    ensures
      var v := w.(evaluations := rows);
      Same(v, w) || (Closer(v, w) && Undone(v) < Undone(w))
  {
    var v := w.(evaluations := rows);
    assert Pending(v) == Pending(w);
    assert DeepDone(w) <= DeepDone(v);
    assert Undone(v) <= Undone(w);
    SmallerSet(Undone(v), Undone(w));
  }

  /** Storing rows never adds work. */
  lemma StoreProgress(w: World, rows: map<AppId, Evaluation>)
    requires RowsKept(w.evaluations, rows)
    ensures var v := w.(evaluations := rows); Closer(v, w) || Same(v, w)
  {
    if w.status == Screening {
      StoreMissing(w, rows);
    } else if w.status == DeepAnalysis {
      StoreUndone(w, rows);
    }
  }

  lemma PolledBudget(config: Config, entry: BatchEntry)
    requires config.pollInterval > 0
    requires (entry.polls + 1) * config.pollInterval < config.maxWait
    ensures Budget(config, Some(entry.(polls := entry.polls + 1))) < Budget(config, Some(entry))
  {
    assert (entry.polls + 1) * config.pollInterval == entry.polls * config.pollInterval + config.pollInterval;
  }

  lemma UnfinishedPollProgress(w: World, stage: BatchStage, id: nat)
    requires Inv(w) && PollBatch(stage, id) in w.sent && w.status == WaitStatus(stage)
    requires w.config.pollInterval > 0
    ensures Closer(AfterUnfinishedPoll(w, stage, id), w)
  {
    EntryOnRecord(w, stage, id);
    var entry := EntryOf(w.funnel, stage).value;
    var next := entry.(polls := entry.polls + 1);
    if next.polls * w.config.pollInterval < w.config.maxWait {
      PolledBudget(w.config, entry);
      LessBudget(w, w.(funnel := WithEntry(w.funnel, stage, next)), stage);
      SendSame(w.(funnel := WithEntry(w.funnel, stage, next)), {PollBatch(stage, id)});
      SameWork(Send(w.(funnel := WithEntry(w.funnel, stage, next)), {PollBatch(stage, id)}),
               w.(funnel := WithEntry(w.funnel, stage, next)));
    }
    hide Inv, Budget, WorkLeft, Same, Reissued;
  }

  lemma LessBudget(w: World, v: World, stage: BatchStage)
    requires w.status == WaitStatus(stage) && EntryOf(v.funnel, stage).Some?
    requires v == w.(funnel := v.funnel) && v.funnel == WithEntry(w.funnel, stage, EntryOf(v.funnel, stage).value)
    requires Budget(w.config, EntryOf(v.funnel, stage)) < Budget(w.config, EntryOf(w.funnel, stage))
    ensures WorkLeft(v) < WorkLeft(w)
  {
    hide Budget, Missing, Undone;
    FunnelEntryOnly(w, v);
  }

  lemma FunnelEntryOnly(w: World, v: World)
    requires v == w.(funnel := v.funnel) && v.funnel.deepPending == w.funnel.deepPending
    ensures Missing(v) == Missing(w) && Undone(v) == Undone(w)
  {
    assert Pending(v) == Pending(w) && DeepDone(v) == DeepDone(w);
  }

  lemma DrainProgress(w: World, stage: BatchStage, id: nat, failures: set<AppId>, dies: bool)
    requires id in w.batches && w.status == WaitStatus(stage)
    ensures var v := AfterPoll(w, stage, id, true, failures, dies); Closer(v, w) || Same(v, w)
    ensures !dies ==> Closer(AfterPoll(w, stage, id, true, failures, dies), w)
  {
    hide Same, DrainLight, DrainDeep, WorkLeft, RowsKept;
    DrainsKeepRows(w.evaluations, w.batches[id], failures);
    if stage == LightBatch {
      StoreProgress(w, DrainLight(w.evaluations, w.batches[id]));
    } else {
      StoreProgress(w, DrainDeep(w.evaluations, w.batches[id], failures));
    }
  }

  lemma PollProgress(w: World, stage: BatchStage, id: nat, ended: bool, failures: set<AppId>, dies: bool)
    requires Inv(w) && Enabled(w, DeliverPoll(stage, id, ended, failures, dies))
    requires w.config.pollInterval > 0
    ensures var v := AfterPoll(w, stage, id, ended, failures, dies); Closer(v, w) || Same(v, w)
    ensures w.status == WaitStatus(stage) && !dies ==> Closer(AfterPoll(w, stage, id, ended, failures, dies), w)
  {
    if w.status == WaitStatus(stage) {
      if ended {
        DrainProgress(w, stage, id, failures, dies);
      } else {
        UnfinishedPollProgress(w, stage, id);
      }
    }
  }

  lemma CommitProgress(w: World, app: AppId, stage: StageReached, dies: bool)
    requires Inv(w) && Enabled(w, CommitInsert(app, stage, dies))
    ensures var v := AfterCommitInsert(w, app, stage, dies); Closer(v, w) || Same(v, w)
    ensures w.status == Screening && app in Missing(w) ==> Closer(AfterCommitInsert(w, app, stage, dies), w)
  {
    hide Inv, Closer, Same, MaybeFinishLight;
    if app !in w.evaluations {
      var rows := w.evaluations[app := Evaluation(stage, NoDeep)];
      StoredCommitProgress(w, app, rows);
      FinishProgress(w.(evaluations := rows), w);
    } else {
      SendSame(w, {});
      assert Send(w, {}) == w;
      FinishProgress(w, w);
      assert app !in Missing(w);
    }
  }

  lemma FinishProgress(stored: World, w: World)
    requires stored.status == w.status && (Closer(stored, w) || Same(stored, w))
    ensures Closer(MaybeFinishLight(stored), w) || Same(MaybeFinishLight(stored), w)
    ensures Closer(stored, w) ==> Closer(MaybeFinishLight(stored), w)
  {
    hide WorkLeft, Missing, Undone;
  }

  lemma StoredCommitProgress(w: World, app: AppId, rows: map<AppId, Evaluation>)
    requires Inv(w) && CommitLight(app) in w.sent && app !in w.evaluations
    requires rows.Keys == w.evaluations.Keys + {app}
    ensures
      var stored := w.(evaluations := rows);
      && (Closer(stored, w) || Same(stored, w))
      && (w.status == Screening ==> Closer(stored, w))
  {
    var stored := w.(evaluations := rows);
    assert app in w.population && w.status != DeepAnalysis;
    hide Inv;
    if w.status == Screening {
      assert app in Missing(w) && app !in Missing(stored);
      StoreMissing(w, rows);
    }
  }

  lemma MaybeFinishDeepProgress(w: World)
    ensures MaybeFinishDeep(w) == w || (w.status == DeepAnalysis && MaybeFinishDeep(w).status == Scoring)
  {
  }

  lemma DeepProgress(w: World, app: AppId, failed: bool, dies: bool)
    ensures var v := AfterDeep(w, app, failed, dies); Closer(v, w) || Same(v, w)
    ensures w.status == DeepAnalysis && app in Undone(w) && app in w.evaluations
        ==> Closer(AfterDeep(w, app, failed, dies), w)
  {
    if w.status == DeepAnalysis && app in w.evaluations && w.evaluations[app].stage != Deep {
      var rows := w.evaluations[app := Deepened(w.evaluations[app], failed)];
      var stored := w.(evaluations := rows);
      StoreUndone(w, rows);
      assert app in DeepDone(stored);
      MaybeFinishDeepProgress(stored);
    } else {
      MaybeFinishDeepProgress(w);
    }
  }

  lemma RecoverProgress(w: World)
    requires Inv(w)
    ensures Closer(AfterRecover(w), w) || Same(AfterRecover(w), w)
    ensures Active(w.status) && Reissued(w) == {} ==> Closer(AfterRecover(w), w)
  {
    var enqueued := Send(w, Reissued(w));
    SendSame(w, Reissued(w));
    LightFinishProgress(enqueued);
    DeepFinishProgress(enqueued);
    ProgressFromSame(enqueued, enqueued, w);
    ProgressFromSame(MaybeFinishLight(enqueued), enqueued, w);
    ProgressFromSame(MaybeFinishDeep(enqueued), enqueued, w);
    if Active(w.status) && Reissued(w) == {} {
      NothingLeftAdvances(w);
    }
    hide Inv, Closer, Same, Reissued, Missing, Undone, MaybeFinishLight, MaybeFinishDeep, Send;
  }

  lemma ProgressFromSame(v: World, enqueued: World, w: World)
    requires Same(enqueued, w) && (Closer(v, enqueued) || Same(v, enqueued))
    ensures Closer(v, w) || Same(v, w)
  {
    SameWork(enqueued, w);
    hide WorkLeft, Missing, Undone, Reissued;
  }

  lemma NothingLeftAdvances(w: World)
    requires Inv(w) && Active(w.status) && Reissued(w) == {}
    ensures Closer(AfterRecover(w), w)
  {
    hide Reissued, WorkLeft, Missing, Undone, Pending, DeepDone;
    NothingReissued(w);
    if w.status == Screening {
      AllCounted(w);
    }
    hide Inv;
  }

  lemma AllCounted(w: World)
    requires Inv(w) && w.status == Screening && w.population <= w.evaluations.Keys
    ensures |w.evaluations| >= w.funnel.total
  {
    assert PopulationSafe(w) && TotalSafe(w);
    hide Inv;
    CountedAll(w);
  }

  lemma SendSame(w: World, messages: set<Message>)
    ensures Same(Send(w, messages), w)
  {
  }

  lemma LightFinishProgress(w: World)
    ensures Closer(MaybeFinishLight(w), w) || Same(MaybeFinishLight(w), w)
  {
    hide WorkLeft;
  }

  lemma DeepFinishProgress(w: World)
    ensures Closer(MaybeFinishDeep(w), w) || Same(MaybeFinishDeep(w), w)
  {
    hide WorkLeft;
  }

  lemma NothingReissued(w: World)
    requires Active(w.status) && Reissued(w) == {}
    ensures w.status == Screening ==> w.funnel.light.None? && Missing(w) == {} && w.population <= w.evaluations.Keys
    ensures w.status == DeepAnalysis ==> w.funnel.deep.None? && Undone(w) == {} && Pending(w) <= DeepDone(w)
    ensures w.status == Screening || w.status == DeepAnalysis
  {
    assert RunStart !in Reissued(w) && FinalizeRun !in Reissued(w) && ScoreRun !in Reissued(w);
    if w.status == Screening {
      assert forall a :: a in Missing(w) ==> ScreenApplication(a) in Screens(Missing(w));
      NothingLeft(w.population, w.evaluations.Keys);
    } else if w.status == DeepAnalysis {
      assert forall a :: a in Undone(w) ==> DeepApplication(a) in Deeps(Undone(w));
      NothingLeft(Pending(w), DeepDone(w));
    }
  }

  lemma RunStartProgress(w: World, memo: map<AppId, Evaluation>, knockedOut: set<AppId>, batchId: nat, dies: bool)
    ensures var v := AfterRunStart(w, memo, knockedOut, batchId, dies); Closer(v, w) || Same(v, w)
    ensures w.status == Queued ==> Closer(AfterRunStart(w, memo, knockedOut, batchId, dies), w)
  {
    hide AfterRunStart, Closer, Same;
    if w.status == Queued {
      RunStartLeaves(w, memo, knockedOut, batchId, dies);
      CloserByPhase(AfterRunStart(w, memo, knockedOut, batchId, dies), w);
    } else {
      RunStartSkips(w, memo, knockedOut, batchId, dies);
      SendSame(w, {});
      assert Send(w, {}) == w;
    }
  }

  lemma RunStartLeaves(w: World, memo: map<AppId, Evaluation>, knockedOut: set<AppId>, batchId: nat, dies: bool)
    requires w.status == Queued
    ensures PhaseLeft(AfterRunStart(w, memo, knockedOut, batchId, dies).status) < PhaseLeft(w.status)
  {
    hide FunnelTotal, Rows;
  }

  lemma RunStartSkips(w: World, memo: map<AppId, Evaluation>, knockedOut: set<AppId>, batchId: nat, dies: bool)
    requires w.status != Queued
    ensures AfterRunStart(w, memo, knockedOut, batchId, dies) == w
  {
  }

  lemma CloserByPhase(v: World, w: World)
    requires PhaseLeft(v.status) < PhaseLeft(w.status)
    ensures Closer(v, w)
  {
  }

  lemma FinalizeAdvances(w: World, selected: seq<AppId>, batchId: nat, death: FinalizeDeath)
    requires w.status == Selecting && death != BeforeAdvance
    ensures PhaseLeft(AfterFinalize(w, selected, batchId, death).status) < PhaseLeft(Selecting)
  {
    var chosen := w.(funnel := w.funnel.(deepPending := selected));
    if selected != [] {
      var advanced := TryAdvance(chosen, Selecting, DeepAnalysis, Noop);
      assert advanced.status == DeepAnalysis;
      var batched := AfterDeepBatch(advanced, batchId);
      assert batched.status == DeepAnalysis || batched.status == Scoring;
    }
  }

  lemma FinalizeProgress(w: World, selected: seq<AppId>, batchId: nat, death: FinalizeDeath)
    ensures var v := AfterFinalize(w, selected, batchId, death); Closer(v, w) || Same(v, w)
    ensures w.status == Selecting && death != BeforeAdvance ==> Closer(AfterFinalize(w, selected, batchId, death), w)
  {
    if w.status == Selecting && death != BeforeAdvance {
      FinalizeAdvances(w, selected, batchId, death);
    }
  }

  /** No step ever undoes progress. */
  lemma StepProgress(w: World, e: Event)
    requires Inv(w) && Enabled(w, e) && w.config.pollInterval > 0
    ensures Closer(Step(w, e), w) || Same(Step(w, e), w)
  {
    match e
    case DeliverRunStart(memo, knockedOut, batchId, dies) => RunStartProgress(w, memo, knockedOut, batchId, dies);
    case CheckExisting(app) => assert Same(AfterCheckExisting(w, app), w);
    case CommitInsert(app, stage, dies) => CommitProgress(w, app, stage, dies);
    case DeliverFinalize(selected, batchId, death) => FinalizeProgress(w, selected, batchId, death);
    case DeliverDeep(app, failed, dies) => DeepProgress(w, app, failed, dies);
    case DeliverPoll(stage, id, ended, failures, dies) => PollProgress(w, stage, id, ended, failures, dies);
    case DeliverScore =>
    case Recover => RecoverProgress(w);
  }

  /** The step that carries the delivery of a message to its end. */
  predicate Completes(m: Message, e: Event) {
    match m
    case RunStart => e.DeliverRunStart? && !e.dies
    case ScreenApplication(a) => e.CommitInsert? && e.app == a
    case FinalizeRun => e.DeliverFinalize? && e.death == Survives
    case DeepApplication(a) => e.DeliverDeep? && e.app == a
    case PollBatch(stage, id) => e.DeliverPoll? && e.batchStage == stage && e.id == id && !e.dies
    case ScoreRun => e.DeliverScore?
    case _ => false
  }

  /** A message is re-issued only in the phase, and for the application, that still waits for it. */
  lemma ReissuedWaits(w: World, m: Message)
    requires m in Reissued(w)
    ensures
      match m
      case RunStart => w.status == Queued
      case ScreenApplication(a) => w.status == Screening && a in Missing(w)
      case FinalizeRun => w.status == Selecting
      case DeepApplication(a) => w.status == DeepAnalysis && a in Undone(w)
      case PollBatch(stage, id) =>
        w.status == WaitStatus(stage) && EntryOf(w.funnel, stage).Some? && EntryOf(w.funnel, stage).value.id == id
      case ScoreRun => w.status == Scoring
      case _ => false
  {
  }

  /** Every message recovery re-issues is worth delivering: completing any one of them is progress. */
  lemma ReissuedIsProductive(w: World, m: Message, e: Event)
    requires Inv(w) && m in Reissued(w) && Completes(m, e) && Enabled(w, e)
    requires w.config.pollInterval > 0
    ensures Closer(Step(w, e), w)
  {
    ReissuedWaits(w, m);
    match e
    case DeliverRunStart(memo, knockedOut, batchId, dies) => RunStartProgress(w, memo, knockedOut, batchId, dies);
    case CommitInsert(app, stage, dies) => CommitProgress(w, app, stage, dies);
    case DeliverFinalize(selected, batchId, death) => FinalizeProgress(w, selected, batchId, death);
    case DeliverDeep(app, failed, dies) => DeepProgress(w, app, failed, dies);
    case DeliverPoll(stage, id, ended, failures, dies) => PollProgress(w, stage, id, ended, failures, dies);
    case DeliverScore =>
    case _ =>
  }

  // ----- rounds of recovery -----

  /**
   A recovery followed by anything at all, in which at least one of the re-issued messages
   (if there were any) is delivered to its end.
   */
  ghost predicate RecoveryRound(w: World, events: seq<Event>) {
    && Executable(w, events) && events != [] && events[0] == Recover
    && (Reissued(w) == {} || exists i, m :: 0 < i < |events| && m in Reissued(w) && Completes(m, events[i]))
  }

  /** Progress made so far is not lost by whatever comes next. */
  lemma {:induction false} CloserStays(start: World, w: World, events: seq<Event>)
    requires Inv(w) && Executable(w, events) && w.config.pollInterval > 0
    requires Closer(w, start)
    ensures Closer(Execute(w, events), start)
    decreases |events|
  {
    if events != [] {
      StepProgress(w, events[0]);
      StepInv(w, events[0]);
      if Same(Step(w, events[0]), w) {
        SameWork(Step(w, events[0]), w);
      }
      CloserStays(start, Step(w, events[0]), events[1..]);
    }
  }

  /** A re-issued message that is delivered later finds the run closer, or brings it closer. */
  lemma {:induction false} DeliveryIsProgress(start: World, w: World, events: seq<Event>, i: nat, m: Message)
    requires Inv(w) && Executable(w, events) && w.config.pollInterval > 0
    requires Same(w, start) && m in Reissued(start)
    requires i < |events| && Completes(m, events[i])
    ensures Closer(Execute(w, events), start)
    decreases |events|
  {
    SameWork(w, start);
    var next := Step(w, events[0]);
    StepInv(w, events[0]);
    StepProgress(w, events[0]);
    if i == 0 {
      ReissuedIsProductive(w, m, events[0]);
    }
    if Closer(next, w) {
      CloserStays(start, next, events[1..]);
    } else {
      assert Same(next, start);
      assert Completes(m, events[1..][i - 1]);
      DeliveryIsProgress(start, next, events[1..], i - 1, m);
    }
  }

  /** Every round of recovery brings a reachable, unfinished run strictly closer to its end. */
  lemma RoundIsProgress(w: World, events: seq<Event>)
    requires Inv(w) && Active(w.status) && w.config.pollInterval > 0
    requires RecoveryRound(w, events)
    ensures Closer(Execute(w, events), w)
  {
    var next := Step(w, Recover);
    StepInv(w, Recover);
    RecoverProgress(w);
    if Closer(next, w) {
      CloserStays(w, next, events[1..]);
    } else {
      var i, m :| 0 < i < |events| && m in Reissued(w) && Completes(m, events[i]);
      assert Completes(m, events[1..][i - 1]);
      DeliveryIsProgress(w, next, events[1..], i - 1, m);
    }
  }

  lemma FreshBatchId(batches: map<nat, set<AppId>>) returns (id: nat)
    ensures id !in batches
  {
    id := FreshNat(batches.Keys);
  }

  lemma {:induction false} FreshNat(ids: set<nat>) returns (id: nat)
    ensures forall x :: x in ids ==> x < id
    decreases ids
  {
    if ids == {} {
      id := 0;
    } else {
      var x :| x in ids;
      var rest := FreshNat(ids - {x});
      id := if rest <= x then x + 1 else rest;
      forall y | y in ids
        ensures y < id
      {
        assert y == x || y in ids - {x};
      }
    }
  }

  /** A delivery that completes a re-issued message, for every message but the two-step one. */
  lemma CompletingEvent(w: World, m: Message) returns (e: Event)
    requires Inv(w) && m in Reissued(w) && !m.ScreenApplication?
    requires AfterRecover(w) == Send(w, Reissued(w))
    ensures Completes(m, e) && Enabled(AfterRecover(w), e)
  {
    ReissuedWaits(w, m);
    var id := FreshBatchId(w.batches);
    match m
    case RunStart => e := DeliverRunStart(map[], {}, id, false);
    case FinalizeRun => e := DeliverFinalize([], id, Survives);
    case DeepApplication(a) => e := DeliverDeep(a, false, false);
    case PollBatch(stage, batch) =>
      assert m in w.sent;
      e := DeliverPoll(stage, batch, true, {}, false);
    case ScoreRun => e := DeliverScore;
  }

  /** Such a round is always possible, even when every message sent so far is lost. */
  lemma RoundExists(w: World) returns (events: seq<Event>)
    requires Inv(w) && Active(w.status)
    ensures RecoveryRound(w, events)
  {
    if Reissued(w) == {} {
      events := [Recover];
      assert Executable(Step(w, Recover), events[1..]);
    } else {
      var m :| m in Reissued(w);
      MessageMeansNoCheck(w, m);
      if m.ScreenApplication? {
        ReissuedWaits(w, m);
        events := ScreenRound(w, m.app);
        assert Completes(m, events[2]);
      } else {
        var e := CompletingEvent(w, m);
        events := Round(w, e);
        assert Completes(m, events[1]);
      }
    }
  }

  lemma MessageMeansNoCheck(w: World, m: Message)
    requires m in Reissued(w)
    ensures AfterRecover(w) == Send(w, Reissued(w))
  {
    ReissuedWaits(w, m);
  }

  lemma Round(w: World, e: Event) returns (events: seq<Event>)
    requires Enabled(AfterRecover(w), e)
    ensures events == [Recover, e] && Executable(w, events)
  {
    events := [Recover, e];
    assert events[1..] == [e];
    var next := Step(w, Recover);
    assert [e][1..] == [];
    assert Executable(Step(next, e), []);
    assert Executable(next, [e]);
  }

  lemma ScreenRound(w: World, a: AppId) returns (events: seq<Event>)
    requires AfterRecover(w) == Send(w, Reissued(w))
    requires w.status == Screening && a in Missing(w) && ScreenApplication(a) in Reissued(w)
    ensures events == [Recover, CheckExisting(a), CommitInsert(a, Light, false)] && Executable(w, events)
  {
    var insert := CommitInsert(a, Light, false);
    events := [Recover, CheckExisting(a), insert];
    var recovered := Step(w, Recover);
    var checked := Step(recovered, CheckExisting(a));
    assert CommitLight(a) in checked.sent;
    assert events[1..] == [CheckExisting(a), insert] && events[1..][1..] == [insert] && [insert][1..] == [];
    assert Executable(Step(checked, insert), []);
    assert Executable(checked, [insert]);
    assert Executable(recovered, events[1..]);
  }

  // ----- convergence -----

  ghost predicate Recovered(w: World, v: World) {
    exists events :: RecoveryRound(w, events) && v == Execute(w, events)
  }

  lemma RecoveredIsCloser(w: World, v: World)
    requires Inv(w) && Active(w.status) && w.config.pollInterval > 0 && Recovered(w, v)
    ensures Inv(v) && v.config == w.config && Closer(v, w)
  {
    var events :| RecoveryRound(w, events) && v == Execute(w, events);
    RoundIsProgress(w, events);
    ExecuteInv(w, events);
  }

  /** How a run may end. */
  ghost predicate Ended(w: World) {
    w.status == Complete
    || (w.status == Failed && (Exhausted(w, w.funnel.light) || Exhausted(w, w.funnel.deep)))
  }

  lemma InactiveEnded(w: World)
    requires Inv(w) && !Active(w.status)
    ensures Ended(w)
  {
  }

  /**
   A run that is recovered for as long as it is unfinished ends: complete, or failed by having
   polled one of its batches past the wait budget.
   */
  lemma {:induction false} RecoveryConverges(history: nat -> World, n: nat) returns (last: nat)
    requires Inv(history(n)) && history(n).config.pollInterval > 0
    requires forall k: nat :: Active(history(k).status) ==> Recovered(history(k), history(k + 1))
    ensures n <= last && Ended(history(last))
    decreases PhaseLeft(history(n).status), WorkLeft(history(n))
  {
    if !Active(history(n).status) {
      InactiveEnded(history(n));
      last := n;
    } else {
      RecoveredIsCloser(history(n), history(n + 1));
      last := RecoveryConverges(history, n + 1);
    }
  }
}
