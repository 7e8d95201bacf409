/** The run protocol and the rows it fills, side by side: what a complete run has to show for everybody. */
module RunResults {
  import opened Wrappers
  import opened Applications
  import opened Spec
  import opened Evaluations
  import opened EvaluationLaws
  import R = Ranking
  import D = Deterministic
  import P = Predicates
  import M = RunModel
  import S = RunSteps
  import RunHealth
  import I = RunSafety

  /** What the workers of one step put into the rows, application by application. */
  type Contents = map<AppId, Act>

  /** The applications whose row a step adds or changes. */
  ghost function Changed(before: map<AppId, M.Evaluation>, after: map<AppId, M.Evaluation>): set<AppId> {
    set a | a in after && (a !in before || after[a] != before[a])
  }

  ghost predicate Staged(text: P.Text, spec: EvaluationSpec, profile: P.Profile) {
    D.StageOf(text, spec.requirements, profile).Ok?
  }

  /** An added row is copied or freshly screened; a changed one is analysed in depth, or that failed. */
  ghost predicate Suits(text: P.Text, spec: EvaluationSpec, w: M.World, e: S.Event, a: AppId, row: M.Evaluation,
                        act: Act) {
    if a in w.evaluations then
      if row.mark == M.DeepAnalysisFailed then act == WriteDeepFailure(a)
      else act.WriteDeep? && act.app == a && Staged(text, spec, act.profile)
    else if e.DeliverRunStart? && a in e.memo then
      act.WriteCopied? && act.app == a && (act.prior.deep <==> row.stage == M.Deep)
    else act.WriteLight? && act.app == a && Staged(text, spec, act.profile)
  }

  ghost predicate Fills(text: P.Text, spec: EvaluationSpec, depth: nat, w: M.World, e: S.Event, contents: Contents)
    requires S.Enabled(w, e)
  {
    var after := S.Step(w, e).evaluations;
    forall a :: a in Changed(w.evaluations, after) ==>
      && a in contents && Possible(text, spec, depth, contents[a])
      && Suits(text, spec, w, e, a, after[a], contents[a])
  }

  /** One row after a step, if the step leaves it one. */
  ghost function RowAfter(text: P.Text, spec: EvaluationSpec, rows: R.Rows, contents: Contents, changed: set<AppId>,
                          a: AppId)
    : Option<R.Row>
  {
    if a !in changed then (if a in rows then Some(rows[a]) else None)
    else if a !in contents then None
    else
      var acted := Acted(text, spec, rows, contents[a]);
      if a in acted then Some(acted[a]) else None
  }

  /** The rows after a step: scored and ranked by score_run, and otherwise filled one by one. */
  ghost function RowsAfter(text: P.Text, spec: EvaluationSpec, w: M.World, e: S.Event, rows: R.Rows,
                           contents: Contents): R.Rows
    requires S.Enabled(w, e)
  {
    if e.DeliverScore? && w.status == M.Scoring then ScoredRun(spec, rows)
    else
      var after := S.Step(w, e).evaluations;
      var changed := Changed(w.evaluations, after);
      map a | a in after && RowAfter(text, spec, rows, contents, changed, a).Some?
           :: RowAfter(text, spec, rows, contents, changed, a).value
  }

  /** The two views of a run agree: the same applications, at Stage 5 in both or in neither. */
  ghost predicate Agree(spec: EvaluationSpec, w: M.World, rows: R.Rows) {
    && (forall a :: a in rows <==> a in w.evaluations)
    && (forall a :: a in rows ==> (rows[a].deep <==> w.evaluations[a].stage == M.Deep))
    && AllSound(spec, rows)
    && (w.status == M.Complete ==> Settled(spec, rows))
  }

  // ----- one step -----

  lemma StageOfNew(w: M.World, e: S.Event, a: AppId)
    requires S.Enabled(w, e) && a in S.Step(w, e).evaluations && a !in w.evaluations
    requires !(e.DeliverRunStart? && a in e.memo)
    ensures S.Step(w, e).evaluations[a].stage != M.Deep
  {
    hide M.AfterFinalize;
    match e
    case DeliverRunStart(memo, knockedOut, batchId, dies) =>
      I.RunStartMarks(w, memo, knockedOut, batchId, dies);
      hide M.AfterRunStart;
    case _ =>
  }

  lemma StageOfChanged(w: M.World, e: S.Event, a: AppId)
    requires I.Inv(w) && S.Enabled(w, e) && a in w.evaluations
    ensures a in S.Step(w, e).evaluations
    ensures S.Step(w, e).evaluations[a] != w.evaluations[a] ==> S.Step(w, e).evaluations[a].stage == M.Deep
  {
    hide I.Inv, S.Enabled, S.Step;
    I.StepKeepsRows(w, e);
  }

  /** The act leaves a sound row, at Stage 5 exactly when the protocol says so. */
  lemma ActFillsRow(text: P.Text, spec: EvaluationSpec, depth: nat, rows: R.Rows, a: AppId, act: Act, deep: bool)
    requires UniqueIds(spec.requirements) && AllSound(spec, rows) && Possible(text, spec, depth, act)
    requires act.WriteLight? || act.WriteDeep? || act.WriteDeepFailure? || act.WriteCopied?
    requires act.app == a && (a in rows <==> act.WriteDeep? || act.WriteDeepFailure?)
    requires act.WriteLight? || act.WriteDeep? ==> Staged(text, spec, act.profile)
    requires deep == (act.WriteDeep? || act.WriteDeepFailure? || (act.WriteCopied? && act.prior.deep))
    ensures a in Acted(text, spec, rows, act)
    ensures Acted(text, spec, rows, act)[a].deep == deep && Sound(spec, Acted(text, spec, rows, act)[a])
  {
    ActIsSound(text, spec, depth, rows, act);
    hide Sound, Possible, UniqueIds, D.StageOf, Scoring.ScoreOf, Assemble.MergeOf;
  }

  lemma ActIsSound(text: P.Text, spec: EvaluationSpec, depth: nat, rows: R.Rows, act: Act)
    requires UniqueIds(spec.requirements) && AllSound(spec, rows) && Possible(text, spec, depth, act)
    ensures AllSound(spec, Acted(text, spec, rows, act))
  {
    hide Acted, UniqueIds, Sound, AllSound;
    if act.WriteCopied? {
      PriorIsSound(text, spec, depth, act);
    }
    ActKeepsSound(text, spec, rows, depth, act);
  }

  /** A row that is there, tells the truth about its gate, and is at Stage 5 when the protocol says so. */
  ghost predicate RowFits(spec: EvaluationSpec, row: Option<R.Row>, evaluation: M.Evaluation) {
    row.Some? && Sound(spec, row.value) && (row.value.deep <==> evaluation.stage == M.Deep)
  }

  lemma RowFilled(text: P.Text, spec: EvaluationSpec, depth: nat, w: M.World, e: S.Event, rows: R.Rows,
                  contents: Contents, a: AppId)
    requires UniqueIds(spec.requirements) && I.Inv(w) && S.Enabled(w, e) && Agree(spec, w, rows)
    requires Fills(text, spec, depth, w, e, contents) && a in S.Step(w, e).evaluations
    ensures
      var after := S.Step(w, e).evaluations;
      RowFits(spec, RowAfter(text, spec, rows, contents, Changed(w.evaluations, after), a), after[a])
  {
    hide I.Inv, S.Enabled, S.Step, Acted, Sound, UniqueIds, Possible, Settled;
    var after := S.Step(w, e).evaluations;
    if a in Changed(w.evaluations, after) {
      if a in w.evaluations {
        StageOfChanged(w, e, a);
      } else if !(e.DeliverRunStart? && a in e.memo) {
        StageOfNew(w, e, a);
      }
      ActFillsRow(text, spec, depth, rows, a, contents[a], after[a].stage == M.Deep);
    }
  }

  lemma ScoringAgrees(spec: EvaluationSpec, w: M.World, rows: R.Rows)
    requires Agree(spec, w, rows)
    ensures
      var scored := ScoredRun(spec, rows);
      && AllSound(spec, scored) && Settled(spec, scored)
      && (forall a :: a in scored <==> a in w.evaluations)
      && (forall a :: a in scored ==> (scored[a].deep <==> w.evaluations[a].stage == M.Deep))
  {
    hide Sound, Settled, ScoredRun;
    ScoringKeepsSound(spec, rows);
    RerankAfterScoreRunIsNoOp(spec, rows);
    ScoringKeepsDepth(spec, rows);
  }

  lemma ScoringKeepsDepth(spec: EvaluationSpec, rows: R.Rows)
    ensures ScoredRun(spec, rows).Keys == rows.Keys
    ensures forall a :: a in rows ==> a in ScoredRun(spec, rows) && ScoredRun(spec, rows)[a].deep == rows[a].deep
  {
    hide Scoring.ScoreOf, ScorerFlags, R.Ahead, PassesGate;
  }

  lemma NothingAfterComplete(w: M.World, e: S.Event)
    requires I.Inv(w) && S.Enabled(w, e) && w.status == M.Complete
    ensures S.Step(w, e).evaluations == w.evaluations && S.Step(w, e).status == M.Complete
  {
  }

  ghost predicate Completes(w: M.World, v: M.World) {
    w.status != M.Complete && v.status == M.Complete
  }

  lemma StartDoesNotComplete(w: M.World, memo: map<AppId, M.Evaluation>, knockedOut: set<AppId>, batchId: nat,
                             dies: bool)
    ensures !Completes(w, M.AfterRunStart(w, memo, knockedOut, batchId, dies))
  {
    hide M.FunnelTotal, M.Rows;
  }

  lemma FinalizeDoesNotComplete(w: M.World, selected: seq<AppId>, batchId: nat, death: M.FinalizeDeath)
    ensures !Completes(w, M.AfterFinalize(w, selected, batchId, death))
  {
    hide M.Deeps, M.DeepDone;
  }

  lemma PollDoesNotComplete(w: M.World, stage: M.BatchStage, id: nat, ended: bool, failed: set<AppId>, dies: bool)
    requires id in w.batches
    ensures !Completes(w, M.AfterPoll(w, stage, id, ended, failed, dies))
  {
    hide M.DrainLight, M.DrainDeep, M.Polled;
  }

  lemma OthersDoNotComplete(w: M.World, app: AppId, stage: M.StageReached, failed: bool, dies: bool)
    ensures !Completes(w, M.AfterCheckExisting(w, app))
    ensures !Completes(w, M.AfterCommitInsert(w, app, stage, dies))
    ensures !Completes(w, M.AfterDeep(w, app, failed, dies))
  {
    hide M.Pending, M.DeepDone;
  }

  lemma RecoveryDoesNotComplete(w: M.World)
    ensures !Completes(w, RunHealth.AfterRecover(w))
  {
    hide M.Pending, M.DeepDone, M.Missing, RunHealth.Undone, RunHealth.Reissued;
  }

  /** Only score_run completes a run. */
  lemma CompleteIsScored(w: M.World, e: S.Event)
    requires S.Enabled(w, e) && Completes(w, S.Step(w, e))
    ensures e.DeliverScore? && w.status == M.Scoring
  {
    hide M.AfterRunStart, M.AfterFinalize, M.AfterPoll, M.AfterDeep, RunHealth.AfterRecover, M.AfterCommitInsert,
      M.AfterCheckExisting, Completes;
    match e
    case DeliverRunStart(memo, knockedOut, batchId, dies) => StartDoesNotComplete(w, memo, knockedOut, batchId, dies);
    case CheckExisting(app) => OthersDoNotComplete(w, app, M.Light, false, false);
    case CommitInsert(app, stage, dies) => OthersDoNotComplete(w, app, stage, false, dies);
    case DeliverFinalize(selected, batchId, death) => FinalizeDoesNotComplete(w, selected, batchId, death);
    case DeliverDeep(app, failed, dies) => OthersDoNotComplete(w, app, M.Light, failed, dies);
    case DeliverPoll(stage, id, ended, failed, dies) => PollDoesNotComplete(w, stage, id, ended, failed, dies);
    case DeliverScore => ScoringCompletes(w);
    case Recover => RecoveryDoesNotComplete(w);
  }

  lemma ScoringCompletes(w: M.World)
    ensures Completes(w, M.AfterScore(w)) ==> w.status == M.Scoring
  {
  }

  lemma ScoreKeepsEvaluations(w: M.World, e: S.Event)
    requires S.Enabled(w, e) && e.DeliverScore?
    ensures S.Step(w, e).evaluations == w.evaluations
  {
  }

  lemma UnchangedRows(text: P.Text, spec: EvaluationSpec, w: M.World, e: S.Event, rows: R.Rows, contents: Contents)
    requires S.Enabled(w, e) && !(e.DeliverScore? && w.status == M.Scoring)
    requires S.Step(w, e).evaluations == w.evaluations && forall a :: a in rows <==> a in w.evaluations
    ensures RowsAfter(text, spec, w, e, rows, contents) == rows
  {
    hide S.Enabled, S.Step, Acted;
  }

  lemma AgreeFromRows(text: P.Text, spec: EvaluationSpec, w: M.World, e: S.Event, rows: R.Rows, contents: Contents)
    requires S.Enabled(w, e) && !(e.DeliverScore? && w.status == M.Scoring)
    requires
      var after := S.Step(w, e).evaluations;
      forall a :: a in after ==>
        RowFits(spec, RowAfter(text, spec, rows, contents, Changed(w.evaluations, after), a), after[a])
    requires S.Step(w, e).status == M.Complete ==> Settled(spec, RowsAfter(text, spec, w, e, rows, contents))
    ensures Agree(spec, S.Step(w, e), RowsAfter(text, spec, w, e, rows, contents))
  {
    hide S.Enabled, S.Step, Sound, Settled, RowAfter, Changed;
  }

  lemma StepAgrees(text: P.Text, spec: EvaluationSpec, depth: nat, w: M.World, e: S.Event, rows: R.Rows,
                   contents: Contents)
    requires UniqueIds(spec.requirements) && I.Inv(w) && S.Enabled(w, e) && Agree(spec, w, rows)
    requires Fills(text, spec, depth, w, e, contents)
    ensures Agree(spec, S.Step(w, e), RowsAfter(text, spec, w, e, rows, contents))
  {
    hide I.Inv, S.Enabled, S.Step, AllSound, Settled, UniqueIds, Fills, RowAfter, Changed, RowFits, ScoredRun;
    if e.DeliverScore? && w.status == M.Scoring {
      ScoreKeepsEvaluations(w, e);
      ScoringAgrees(spec, w, rows);
    } else {
      forall a | a in S.Step(w, e).evaluations
        ensures
          var after := S.Step(w, e).evaluations;
          RowFits(spec, RowAfter(text, spec, rows, contents, Changed(w.evaluations, after), a), after[a])
      {
        RowFilled(text, spec, depth, w, e, rows, contents, a);
      }
      if w.status == M.Complete {
        NothingAfterComplete(w, e);
        UnchangedRows(text, spec, w, e, rows, contents);
      } else if S.Step(w, e).status == M.Complete {
        CompleteIsScored(w, e);
      }
      AgreeFromRows(text, spec, w, e, rows, contents);
    }
  }

  // ----- whole runs -----

  ghost predicate Filled(text: P.Text, spec: EvaluationSpec, depth: nat, w: M.World, events: seq<S.Event>,
                         contents: seq<Contents>)
    requires S.Executable(w, events)
    decreases |events|
  {
    && |contents| == |events|
    && (events == [] ||
        (Fills(text, spec, depth, w, events[0], contents[0])
         && Filled(text, spec, depth, S.Step(w, events[0]), events[1..], contents[1..])))
  }

  ghost function RowsAtEnd(text: P.Text, spec: EvaluationSpec, w: M.World, events: seq<S.Event>, rows: R.Rows,
                           contents: seq<Contents>)
    : R.Rows
    requires S.Executable(w, events) && |contents| == |events|
    decreases |events|
  {
    if events == [] then rows
    else RowsAtEnd(text, spec, S.Step(w, events[0]), events[1..],
                   RowsAfter(text, spec, w, events[0], rows, contents[0]), contents[1..])
  }

  lemma {:induction false} RunAgrees(text: P.Text, spec: EvaluationSpec, depth: nat, w: M.World, events: seq<S.Event>,
                                     rows: R.Rows, contents: seq<Contents>)
    requires UniqueIds(spec.requirements) && I.Inv(w) && Agree(spec, w, rows)
    requires S.Executable(w, events) && Filled(text, spec, depth, w, events, contents)
    ensures Agree(spec, S.Execute(w, events), RowsAtEnd(text, spec, w, events, rows, contents))
    decreases |events|
  {
    hide I.Inv, S.Step, S.Enabled, Agree, Fills, RowsAfter, UniqueIds;
    if events != [] {
      I.StepInv(w, events[0]);
      StepAgrees(text, spec, depth, w, events[0], rows, contents[0]);
      RunAgrees(text, spec, depth, S.Step(w, events[0]), events[1..],
                RowsAfter(text, spec, w, events[0], rows, contents[0]), contents[1..]);
    }
  }

  lemma FreshAgrees(spec: EvaluationSpec, w: M.World)
    requires S.Fresh(w)
    ensures Agree(spec, w, map[]) && I.Inv(w)
  {
    I.FreshInv(w);
    hide I.Inv, Settled;
  }

  /**
   However messages are lost, repeated or reordered, and whatever the judges say: once a run is complete every
   profiled eligible application has its one row, ranked in key order if its gate passes and rejected if not,
   everybody selected has been through Stage 5, and ranking again would change nothing.
   */
  lemma CompleteRunIsRanked(text: P.Text, spec: EvaluationSpec, depth: nat, w: M.World, events: seq<S.Event>,
                            contents: seq<Contents>)
    requires UniqueIds(spec.requirements) && S.Fresh(w)
    requires S.Executable(w, events) && Filled(text, spec, depth, w, events, contents)
    requires S.Execute(w, events).status == M.Complete
    ensures
      var end, rows := S.Execute(w, events), RowsAtEnd(text, spec, w, events, map[], contents);
      && rows.Keys == w.population
      && Ordered(rows, GatePassers(spec, rows))
      && Reranked(rows) == rows && ScoredRun(spec, rows) == rows
      && forall a :: a in M.Pending(end) ==> a in rows && rows[a].deep
  {
    assert |contents| == |events|;
    hide S.Execute, S.Executable, RowsAtEnd, Filled, Settled, I.Inv, S.Fresh, Agree, I.PopulationSafe, I.DeepSafe,
      I.FailureSafe, I.Copied;
    FreshAgrees(spec, w);
    RunAgrees(text, spec, depth, w, events, map[], contents);
    I.RunIsSafe(w, events);
    CompleteAgrees(spec, S.Execute(w, events), RowsAtEnd(text, spec, w, events, map[], contents));
  }

  lemma CompleteAgrees(spec: EvaluationSpec, end: M.World, rows: R.Rows)
    requires end.status == M.Complete && Agree(spec, end, rows) && I.PopulationSafe(end) && I.DeepSafe(end)
    ensures rows.Keys == end.population
    ensures Ordered(rows, GatePassers(spec, rows)) && Reranked(rows) == rows && ScoredRun(spec, rows) == rows
    ensures forall a :: a in M.Pending(end) ==> a in rows && rows[a].deep
  {
    hide Settled, AllSound, Ordered, M.Pending;
    SettledIsScored(spec, rows);
    SettledIsOrdered(spec, rows);
    forall a
      ensures a in rows.Keys <==> a in end.population
    {
    }
  }
}
