/** The transition system: which deliveries may happen in a state, and whole executions. */
module RunSteps {
  import opened Applications
  import opened Wrappers
  import opened RunModel
  import opened RunHealth

  /** One atomic step, with everything the outside world chooses in it. */
  datatype Event =
    | DeliverRunStart(memo: map<AppId, Evaluation>, knockedOut: set<AppId>, batchId: nat, dies: bool)
    | CheckExisting(app: AppId)
    | CommitInsert(app: AppId, stage: StageReached, dies: bool)
    | DeliverFinalize(selected: seq<AppId>, batchId: nat, death: FinalizeDeath)
    | DeliverDeep(app: AppId, failed: bool, dies: bool)
    | DeliverPoll(batchStage: BatchStage, id: nat, ended: bool, failures: set<AppId>, dies: bool)
    | DeliverScore
    | Recover

  /** The message a step consumes; recovery is a request, not a message. */
  function Consumes(e: Event): Option<Message> {
    match e
    case DeliverRunStart(_, _, _, _) => Some(RunStart)
    case CheckExisting(app) => Some(ScreenApplication(app))
    case CommitInsert(app, _, _) => Some(CommitLight(app))
    case DeliverFinalize(_, _, _) => Some(FinalizeRun)
    case DeliverDeep(app, _, _) => Some(DeepApplication(app))
    case DeliverPoll(stage, id, _, _, _) => Some(PollBatch(stage, id))
    case DeliverScore => Some(ScoreRun)
    case Recover => None
  }

  /** Selection only ever names stored candidates that were not cleanly knocked out. */
  predicate Selectable(w: World, selected: seq<AppId>) {
    forall a :: a in selected ==> a in w.evaluations && w.evaluations[a].stage != HardFilter
  }

  ghost predicate Enabled(w: World, e: Event) {
    && (Consumes(e).Some? ==> Consumes(e).value in w.sent)
    && match e
       case DeliverRunStart(memo, knockedOut, batchId, _) =>
         && memo.Keys <= w.population
         && knockedOut <= w.population - memo.Keys
         && batchId !in w.batches
       case CommitInsert(_, stage, _) => stage != Deep
       case DeliverFinalize(selected, batchId, _) => Selectable(w, selected) && batchId !in w.batches
       case DeliverPoll(_, id, _, _, _) => id in w.batches
       case _ => true
  }

  ghost function Step(w: World, e: Event): (v: World)
    requires Enabled(w, e)
    ensures SameRun(v, w)
  {
    match e
    case DeliverRunStart(memo, knockedOut, batchId, dies) => AfterRunStart(w, memo, knockedOut, batchId, dies)
    case CheckExisting(app) => AfterCheckExisting(w, app)
    case CommitInsert(app, stage, dies) => AfterCommitInsert(w, app, stage, dies)
    case DeliverFinalize(selected, batchId, death) => AfterFinalize(w, selected, batchId, death)
    case DeliverDeep(app, failed, dies) => AfterDeep(w, app, failed, dies)
    case DeliverPoll(stage, id, ended, failures, dies) => AfterPoll(w, stage, id, ended, failures, dies)
    case DeliverScore => AfterScore(w)
    case Recover => AfterRecover(w)
  }

  /** A freshly created run: queued, with its start message on the way. */
  ghost predicate Fresh(w: World) {
    && w.status == Queued
    && w.evaluations == map[] && w.batches == map[] && w.sent == {RunStart}
    && w.funnel == Funnel(0, [], None, None)
  }

  ghost predicate Executable(w: World, events: seq<Event>)
    decreases |events|
  {
    events == [] || (Enabled(w, events[0]) && Executable(Step(w, events[0]), events[1..]))
  }

  ghost function Execute(w: World, events: seq<Event>): (v: World)
    requires Executable(w, events)
    ensures SameRun(v, w)
    decreases |events|
  {
    if events == [] then w else Execute(Step(w, events[0]), events[1..])
  }
}
