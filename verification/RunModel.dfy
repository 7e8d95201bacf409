/**
 The screening run as a state machine (workers/tasks/screen.py).

 The database row is the state; task messages are hints that may be lost, repeated or
 reordered. `sent` therefore only grows: a message in it may be delivered at any later time,
 any number of times, or never. Each function below is one task delivery. Its `dies` argument
 stops the worker right after a commit, before it goes on to its next one.
 */
module RunModel {
  import opened Applications
  import opened Wrappers

  datatype Status = Queued | Screening | Selecting | DeepAnalysis | Scoring | Complete | Failed
  datatype Mode = Interactive | Batch
  datatype BatchStage = LightBatch | DeepBatch
  datatype StageReached = HardFilter | Light | Deep

  /** What a stored result document says about Stage 5. */
  datatype DeepMark = NoDeep | DeepResult | DeepAnalysisFailed

  datatype Evaluation = Evaluation(stage: StageReached, mark: DeepMark)
  datatype BatchEntry = BatchEntry(id: nat, polls: nat)
  datatype Funnel = Funnel(total: nat, deepPending: seq<AppId>,
                           light: Option<BatchEntry>, deep: Option<BatchEntry>)
  datatype Config = Config(pollInterval: int, maxWait: int)

  /** `CommitLight` is the second half of a `ScreenApplication` delivery: the insert still to commit. */
  datatype Message =
    | RunStart
    | ScreenApplication(app: AppId)
    | CommitLight(app: AppId)
    | FinalizeRun
    | DeepApplication(app: AppId)
    | PollBatch(stage: BatchStage, id: nat)
    | ScoreRun
    | Noop

  /**
   One run, its evaluation rows (keyed by application: the table has a uniqueness constraint on
   the pair), the batches the provider has accepted, and every message ever sent.
   `population` is the set of eligible applications with a profile.
   */
  datatype World = World(
    population: set<AppId>, mode: Mode, config: Config,
    status: Status, funnel: Funnel, evaluations: map<AppId, Evaluation>,
    batches: map<nat, set<AppId>>, sent: set<Message>)

  /** Where a worker of `finalize_run` may stop. */
  datatype FinalizeDeath = Survives | BeforeAdvance | AfterAdvance

  /** The same run: what a run is created with never changes. */
  ghost predicate SameRun(v: World, w: World) {
    v.population == w.population && v.mode == w.mode && v.config == w.config
  }

  function Send(w: World, messages: set<Message>): World {
    w.(sent := w.sent + messages)
  }

  /** The guarded update: whoever still sees the source status wins and enqueues the next task. */
  function TryAdvance(w: World, source: Status, target: Status, message: Message): (v: World)
    ensures SameRun(v, w) && v.evaluations == w.evaluations
  {
    if w.status == source then Send(w.(status := target), {message}) else w
  }

  function Screens(apps: set<AppId>): set<Message> {
    set a | a in apps :: ScreenApplication(a)
  }

  function Deeps(apps: set<AppId>): set<Message> {
    set a | a in apps :: DeepApplication(a)
  }

  function Pending(w: World): set<AppId> {
    set a | a in w.funnel.deepPending
  }

  function DeepDone(w: World): set<AppId> {
    set a | a in w.evaluations && w.evaluations[a].stage == Deep
  }

  function Missing(w: World): set<AppId> {
    w.population - w.evaluations.Keys
  }

  function Rows(apps: set<AppId>, row: Evaluation): map<AppId, Evaluation> {
    map a | a in apps :: row
  }

  const LIGHT_ROW := Evaluation(Light, NoDeep)
  const KNOCKOUT_ROW := Evaluation(HardFilter, NoDeep)

  // ----- run_start -----

  function FunnelTotal(population: set<AppId>, memo: map<AppId, Evaluation>): nat {
    |population - memo.Keys| + |memo|
  }

  /** Rows copied from earlier runs are in, the funnel is counted, the phase is open. */
  function Started(w: World, memo: map<AppId, Evaluation>): World {
    w.(status := Screening,
       evaluations := w.evaluations + memo,
       funnel := w.funnel.(total := FunnelTotal(w.population, memo), deepPending := []))
  }

  function AfterRunStart(w: World, memo: map<AppId, Evaluation>, knockedOut: set<AppId>,
                         batchId: nat, dies: bool): (v: World)
    ensures SameRun(v, w)
  {
    if w.status != Queued then w else
    var pending := w.population - memo.Keys;
    var started := Started(w, memo);
    if w.mode == Batch then AfterLightBatch(started, pending, knockedOut, batchId, dies)
    else if dies then started
    else if pending == {} then TryAdvance(started, Screening, Selecting, FinalizeRun)
    else Send(started, Screens(pending))
  }

  /** Economy mode: clean knockouts are stored at once, everyone else goes out as one batch. */
  function AfterLightBatch(w: World, pending: set<AppId>, knockedOut: set<AppId>,
                           batchId: nat, dies: bool): (v: World)
    ensures SameRun(v, w)
  {
    var stored := w.(evaluations := w.evaluations + Rows(knockedOut, KNOCKOUT_ROW));
    var requests := pending - knockedOut;
    if dies then stored
    else if requests == {} then TryAdvance(stored, Screening, Selecting, FinalizeRun)
    else SubmitLight(stored, requests, batchId)
  }

  function SubmitLight(w: World, requests: set<AppId>, batchId: nat): World {
    Send(w.(batches := w.batches[batchId := requests],
            funnel := w.funnel.(light := Some(BatchEntry(batchId, 0)))),
         {PollBatch(LightBatch, batchId)})
  }

  // ----- screen_application -----

  function MaybeFinishLight(w: World): (v: World)
    ensures SameRun(v, w) && v.evaluations == w.evaluations
  {
    if |w.evaluations| >= w.funnel.total
    then TryAdvance(w, Screening, Selecting, FinalizeRun)
    else w
  }

  function AfterCheckExisting(w: World, app: AppId): (v: World)
    ensures SameRun(v, w) && v.evaluations == w.evaluations
  {
    if w.status != Screening && w.status != Selecting then w
    else if app in w.evaluations then w
    else Send(w, {CommitLight(app)})
  }

  /** A row that is already there is the uniqueness constraint firing: the first writer's row stands. */
  function AfterCommitInsert(w: World, app: AppId, stage: StageReached, dies: bool): (v: World)
    ensures SameRun(v, w)
  {
    var stored :=
      if app in w.evaluations then w
      else w.(evaluations := w.evaluations[app := Evaluation(stage, NoDeep)]);
    if dies then stored else MaybeFinishLight(stored)
  }

  // ----- finalize_run -----

  function AfterFinalize(w: World, selected: seq<AppId>, batchId: nat, dies: FinalizeDeath): (v: World)
    ensures SameRun(v, w) && v.evaluations == w.evaluations
  {
    if w.status != Selecting then w else
    var chosen := w.(funnel := w.funnel.(deepPending := selected));
    if dies == BeforeAdvance then chosen
    else if selected == [] then TryAdvance(chosen, Selecting, Scoring, ScoreRun)
    else
      var advanced := TryAdvance(chosen, Selecting, DeepAnalysis, Noop);
      if dies == AfterAdvance then advanced
      else if w.mode == Batch then AfterDeepBatch(advanced, batchId)
      else Send(advanced, Deeps(Pending(advanced)))
  }

  function AfterDeepBatch(w: World, batchId: nat): (v: World)
    ensures SameRun(v, w) && v.evaluations == w.evaluations
  {
    var requests := Pending(w) * w.evaluations.Keys - DeepDone(w);
    if requests == {} then TryAdvance(w, DeepAnalysis, Scoring, ScoreRun)
    else SubmitDeep(w, requests, batchId)
  }

  function SubmitDeep(w: World, requests: set<AppId>, batchId: nat): World {
    Send(w.(batches := w.batches[batchId := requests],
            funnel := w.funnel.(deep := Some(BatchEntry(batchId, 0)))),
         {PollBatch(DeepBatch, batchId)})
  }

  // ----- deep_application -----

  function MaybeFinishDeep(w: World): (v: World)
    ensures SameRun(v, w) && v.evaluations == w.evaluations
  {
    if Pending(w) <= DeepDone(w)
    then TryAdvance(w, DeepAnalysis, Scoring, ScoreRun)
    else w
  }

  function Deepened(row: Evaluation, failed: bool): Evaluation {
    row.(stage := Deep, mark := if failed then DeepAnalysisFailed else DeepResult)
  }

  function AfterDeep(w: World, app: AppId, failed: bool, dies: bool): (v: World)
    ensures SameRun(v, w)
  {
    if w.status != DeepAnalysis then w
    else if app !in w.evaluations || w.evaluations[app].stage == Deep then MaybeFinishDeep(w)
    else
      var stored := w.(evaluations := w.evaluations[app := Deepened(w.evaluations[app], failed)]);
      if dies then stored else MaybeFinishDeep(stored)
  }

  // ----- poll_batch -----

  function EntryOf(funnel: Funnel, stage: BatchStage): Option<BatchEntry> {
    if stage == LightBatch then funnel.light else funnel.deep
  }

  function WithEntry(funnel: Funnel, stage: BatchStage, entry: BatchEntry): Funnel {
    if stage == LightBatch then funnel.(light := Some(entry)) else funnel.(deep := Some(entry))
  }

  function WaitStatus(stage: BatchStage): Status {
    if stage == LightBatch then Screening else DeepAnalysis
  }

  /** One more poll on record; the entry is the one the batch was submitted with. */
  function Polled(entry: Option<BatchEntry>, id: nat): BatchEntry {
    match entry
    case Some(e) => e.(polls := e.polls + 1)
    case None => BatchEntry(id, 1)
  }

  /** The batch is still in flight: count the poll, then give up or come back later. */
  function AfterUnfinishedPoll(w: World, stage: BatchStage, id: nat): (v: World)
    ensures SameRun(v, w) && v.evaluations == w.evaluations
  {
    var entry := Polled(EntryOf(w.funnel, stage), id);
    var counted := w.(funnel := WithEntry(w.funnel, stage, entry));
    if entry.polls * w.config.pollInterval >= w.config.maxWait
    then counted.(status := Failed)
    else Send(counted, {PollBatch(stage, id)})
  }

  function DrainLight(rows: map<AppId, Evaluation>, results: set<AppId>): map<AppId, Evaluation> {
    rows + Rows(results - rows.Keys, LIGHT_ROW)
  }

  function DrainDeep(rows: map<AppId, Evaluation>, results: set<AppId>, failed: set<AppId>)
    : map<AppId, Evaluation>
  {
    map a | a in rows ::
      if a in results && rows[a].stage != Deep then Deepened(rows[a], a in failed) else rows[a]
  }

  /** `failed` names the requests whose individual result is an error. */
  function AfterPoll(w: World, stage: BatchStage, id: nat, ended: bool, failed: set<AppId>, dies: bool): (v: World)
    requires id in w.batches
    ensures SameRun(v, w)
  {
    if w.status != WaitStatus(stage) then w
    else if !ended then AfterUnfinishedPoll(w, stage, id)
    else if stage == LightBatch then
      var drained := w.(evaluations := DrainLight(w.evaluations, w.batches[id]));
      if dies then drained else TryAdvance(drained, Screening, Selecting, FinalizeRun)
    else
      var drained := w.(evaluations := DrainDeep(w.evaluations, w.batches[id], failed));
      if dies then drained else TryAdvance(drained, DeepAnalysis, Scoring, ScoreRun)
  }

  // ----- score_run -----

  function AfterScore(w: World): (v: World)
    ensures SameRun(v, w) && v.evaluations == w.evaluations
  {
    if w.status != Scoring then w else w.(status := Complete)
  }
}
