/** One ranking: what the stages leave, what score_run and rerank_run make of it, and what corrections keep. */
module EvaluationLaws {
  import opened Applications
  import opened Wrappers
  import opened Sorting
  import opened Spec
  import opened Scoring
  import opened Assemble
  import opened Ranking
  import opened Evaluations
  import D = Deterministic
  import L = PipelineLaws
  import P = Predicates

  // ----- the stored hard result tells the truth about the gate -----

  ghost predicate Sound(spec: EvaluationSpec, row: Row) {
    row.hardResult == Passed <==> PassesGate(spec, row)
  }

  ghost predicate AllSound(spec: EvaluationSpec, rows: Rows) {
    forall id :: id in rows ==> Sound(spec, rows[id])
  }

  /** Light screening writes "pass" exactly when the gate passes; in particular a near miss always fails it. */
  lemma LightRowSound(text: P.Text, spec: EvaluationSpec, profile: P.Profile, output: Option<Verdicts>,
                      failed: bool, injected: bool)
    requires UniqueIds(spec.requirements) && D.StageOf(text, spec.requirements, profile).Ok?
    requires output.Some? ==> L.JudgedKinds(output.value)
    ensures
      var row := LightRow(spec, D.StageOf(text, spec.requirements, profile).value, output, failed, injected);
      && Sound(spec, row)
      && (row.hardResult == Borderline ==> !PassesGate(spec, row))
  {
    var judged: Verdicts := if output == None then map[] else output.value;
    var stage := D.StageOf(text, spec.requirements, profile).value;
    hide ScoreOf, D.StageOf, GateOf, MergeOf, ScorerFlags;
    GateOfScore(spec, LightRow(spec, stage, output, failed, injected));
    if stage.knockedOut || stage.borderline {
      L.KnockedOutNeverPasses(text, spec, profile, judged);
    }
  }

  lemma DeepFailureSound(spec: EvaluationSpec, row: Row)
    requires Sound(spec, row)
    ensures Sound(spec, DeepFailedRow(row))
  {
  }

  lemma CopiedSound(spec: EvaluationSpec, prior: Row)
    requires Sound(spec, prior)
    ensures Sound(spec, CopiedRow(prior))
  {
  }

  lemma DeepRowSound(spec: EvaluationSpec, row: Row, stage: D.Stage, deep: Verdicts, split: bool, injected: bool)
    ensures Sound(spec, DeepRow(spec, row, stage, deep, split, injected))
  {
    hide ScoreOf, GateOf, MergeOf, ScorerFlags;
    GateOfScore(spec, DeepRow(spec, row, stage, deep, split, injected));
  }

  // ----- ranking twice -----

  lemma SameKeysSameAhead(a: Rows, b: Rows, passing: set<AppId>, id: AppId)
    requires forall other :: ScoreIn(a, other) == ScoreIn(b, other) && ConfidenceIn(a, other) == ConfidenceIn(b, other)
    ensures Ahead(a, passing, id) == Ahead(b, passing, id)
  {
    assert forall x, y :: NotAfter(a, x, y) <==> NotAfter(b, x, y);
  }

  lemma RankingKeepsKeys(rows: Rows, passing: set<AppId>, id: AppId)
    ensures ScoreIn(RankedOver(rows, passing), id) == ScoreIn(rows, id)
    ensures ConfidenceIn(RankedOver(rows, passing), id) == ConfidenceIn(rows, id)
  {
  }

  lemma RankedTwice(rows: Rows, passing: set<AppId>)
    ensures RankedOver(RankedOver(rows, passing), passing) == RankedOver(rows, passing)
  {
    var once := RankedOver(rows, passing);
    forall id
      ensures ScoreIn(once, id) == ScoreIn(rows, id) && ConfidenceIn(once, id) == ConfidenceIn(rows, id)
    {
      RankingKeepsKeys(rows, passing, id);
    }
    forall id | id in once
      ensures RankedRow(once, passing, id) == once[id]
    {
      SameKeysSameAhead(once, rows, passing, id);
    }
  }

  // ----- settled runs -----

  /** Score, confidence, band and hard result are the scorer's, for the verdicts on file. */
  ghost predicate RowSettled(spec: EvaluationSpec, row: Row) {
    var s := ScoreOf(spec, row.verdicts);
    && row.score == Some(s.finalScore) && row.confidence == s.confidence
    && row.hardResult == (if s.gate.Passes() then Passed else Failed)
    && (s.gate.Passes() ==> row.band == Some(Banded(s.band)))
    && ScorerFlags(s) <= row.flags
  }

  ghost predicate Settled(spec: EvaluationSpec, rows: Rows) {
    && (forall id :: id in rows ==> RowSettled(spec, rows[id]))
    && Reranked(rows) == rows
  }

  lemma RankedRowSettled(spec: EvaluationSpec, rows: Rows, passing: set<AppId>, id: AppId)
    requires id in rows && RowSettled(spec, rows[id])
    requires id in passing <==> rows[id].hardResult == Passed
    ensures RowSettled(spec, RankedRow(rows, passing, id))
  {
    hide ScoreOf, ScorerFlags, Ranking.Ahead;
  }

  lemma SettledByRanking(spec: EvaluationSpec, rows: Rows)
    requires forall id :: id in rows ==> RowSettled(spec, rows[id])
    ensures Settled(spec, Reranked(rows))
    ensures Reranked(Reranked(rows)) == Reranked(rows)
  {
    hide RowSettled, Ranking.Ahead;
    var passing := HardPassers(rows);
    forall id | id in rows
      ensures RowSettled(spec, RankedRow(rows, passing, id))
    {
      RankedRowSettled(spec, rows, passing, id);
    }
    assert HardPassers(RankedOver(rows, passing)) == passing;
    RankedTwice(rows, passing);
  }

  lemma RescoredRowSettled(spec: EvaluationSpec, row: Row)
    requires Sound(spec, row)
    ensures RowSettled(spec, RescoredRow(spec, row))
    ensures RescoredRow(spec, row).hardResult == Passed <==> PassesGate(spec, row)
  {
    hide ScoreOf, ScorerFlags, GateOf;
    GateOfScore(spec, row);
  }

  lemma RescoredSettled(spec: EvaluationSpec, rows: Rows)
    requires AllSound(spec, rows)
    ensures Rescored(spec, rows).Keys == rows.Keys
    ensures forall id :: id in Rescored(spec, rows) ==> RowSettled(spec, Rescored(spec, rows)[id])
    ensures HardPassers(Rescored(spec, rows)) == GatePassers(spec, rows)
  {
    hide ScoreOf, RowSettled, Sound, PassesGate, RescoredRow;
    forall id | id in rows
      ensures RowSettled(spec, RescoredRow(spec, rows[id]))
      ensures RescoredRow(spec, rows[id]).hardResult == Passed <==> PassesGate(spec, rows[id])
    {
      assert Sound(spec, rows[id]);
      RescoredRowSettled(spec, rows[id]);
    }
  }

  /** The two ranking sites agree: ranking again right after the run is scored changes nothing. */
  lemma RerankAfterScoreRunIsNoOp(spec: EvaluationSpec, rows: Rows)
    requires AllSound(spec, rows)
    ensures ScoredRun(spec, rows) == Reranked(Rescored(spec, rows))
    ensures Reranked(ScoredRun(spec, rows)) == ScoredRun(spec, rows)
    ensures Settled(spec, ScoredRun(spec, rows))
    ensures ScoredRun(spec, rows).Keys == rows.Keys
  {
    hide *;
    ScoredIsReranked(spec, rows);
    SettledByRanking(spec, Rescored(spec, rows));
    RerankKeepsRows(Rescored(spec, rows));
  }

  lemma ScoredIsReranked(spec: EvaluationSpec, rows: Rows)
    requires AllSound(spec, rows)
    ensures ScoredRun(spec, rows) == Reranked(Rescored(spec, rows))
    ensures forall id :: id in Rescored(spec, rows) ==> RowSettled(spec, Rescored(spec, rows)[id])
    ensures Rescored(spec, rows).Keys == rows.Keys
  {
    hide RowSettled, AllSound, Ranking.RankedOver, Rescored, HardPassers, GatePassers;
    RescoredSettled(spec, rows);
  }

  lemma SettledRowRescored(spec: EvaluationSpec, row: Row)
    requires RowSettled(spec, row) && (row.hardResult != Passed ==> row.band == Some(Rejected) && row.rank == None)
    ensures RescoredRow(spec, row) == if PassesGate(spec, row) then row else
              row.(band := Some(Banded(ScoreOf(spec, row.verdicts).band)))
    ensures row.hardResult == Passed <==> PassesGate(spec, row)
  {
    hide ScoreOf, ScorerFlags, GateOf;
    GateOfScore(spec, row);
  }

  /** A settled run is a fixed point: scoring it over again gives it back unchanged. */
  lemma SettledIsScored(spec: EvaluationSpec, rows: Rows)
    requires Settled(spec, rows)
    ensures ScoredRun(spec, rows) == rows && Reranked(rows) == rows
  {
    hide ScoreOf, RowSettled, PassesGate, RescoredRow, Ranking.Ahead;
    var passing, rescored := HardPassers(rows), Rescored(spec, rows);
    forall id | id in rows
      ensures rows[id] == RankedRow(rows, passing, id)
      ensures rows[id].hardResult == Passed <==> PassesGate(spec, rows[id])
      ensures RescoredRow(spec, rows[id]) == if PassesGate(spec, rows[id]) then rows[id] else
                rows[id].(band := Some(Banded(ScoreOf(spec, rows[id].verdicts).band)))
    {
      assert Reranked(rows)[id] == RankedRow(rows, passing, id);
      SettledRowRescored(spec, rows[id]);
    }
    assert GatePassers(spec, rows) == passing;
    forall id | id in rows
      ensures RankedRow(rescored, passing, id) == RankedRow(rows, passing, id)
    {
      SameKeysSameAhead(rescored, rows, passing, id);
    }
  }

  // ----- corrections -----

  lemma CorrectionSettles(spec: EvaluationSpec, rows: Rows, app: AppId, reqId: string, kind: VerdictKind)
    requires app in rows && Settled(spec, rows)
    ensures Settled(spec, Corrected(spec, rows, app, reqId, kind))
    ensures Corrected(spec, rows, app, reqId, kind).Keys == rows.Keys
  {
    hide ScoreOf, RowSettled, CorrectedRow, Reranked, Refused;
    if Refused(spec, reqId, kind) == None {
      CorrectedRowSettled(spec, rows[app], reqId, kind);
      SettledByRanking(spec, rows[app := CorrectedRow(spec, rows[app], reqId, kind)]);
      RerankKeepsRows(rows[app := CorrectedRow(spec, rows[app], reqId, kind)]);
    }
  }

  lemma RerankKeepsRows(rows: Rows)
    ensures Reranked(rows).Keys == rows.Keys
  {
  }

  lemma CorrectedRowSettled(spec: EvaluationSpec, row: Row, reqId: string, kind: VerdictKind)
    ensures RowSettled(spec, CorrectedRow(spec, row, reqId, kind))
  {
    hide ScoreOf, ScorerFlags;
  }

  datatype Correction = Correction(app: AppId, reqId: string, kind: VerdictKind)

  ghost function AfterCorrections(spec: EvaluationSpec, rows: Rows, history: seq<Correction>): Rows {
    if history == [] then rows
    else
      var before, last := AfterCorrections(spec, rows, history[..|history| - 1]), history[|history| - 1];
      if last.app in before then Corrected(spec, before, last.app, last.reqId, last.kind) else before
  }

  lemma {:induction false} CorrectionsSettle(spec: EvaluationSpec, rows: Rows, history: seq<Correction>)
    requires Settled(spec, rows)
    ensures Settled(spec, AfterCorrections(spec, rows, history))
    ensures AfterCorrections(spec, rows, history).Keys == rows.Keys
  {
    hide Settled, Corrected;
    if history != [] {
      var init, last := history[..|history| - 1], history[|history| - 1];
      CorrectionsSettle(spec, rows, init);
      if last.app in rows {
        CorrectionSettles(spec, AfterCorrections(spec, rows, init), last.app, last.reqId, last.kind);
      }
    }
  }

  function Worth(x: Option<real>): real {
    match x
    case Some(value) => value
    case None => 0.0
  }

  /** The better score goes first, then the surer one, then the smaller id. */
  ghost predicate Precedes(x: Row, a: AppId, y: Row, b: AppId) {
    || Worth(x.score) > Worth(y.score)
    || (Worth(x.score) == Worth(y.score) && Worth(x.confidence) > Worth(y.confidence))
    || (Worth(x.score) == Worth(y.score) && Worth(x.confidence) == Worth(y.confidence) && a.order < b.order)
  }

  lemma KeyMeaning(rows: Rows, a: AppId, b: AppId)
    requires a in rows && b in rows && a != b
    ensures NotAfter(rows, a, b) <==> Precedes(rows[a], a, rows[b], b)
  {
  }

  /** Ranks 1 to n in key order for those who pass; the others are unranked and rejected. */
  ghost predicate Ordered(rows: Rows, passing: set<AppId>) {
    && (forall id :: id in passing ==> id in rows && rows[id].rank.Some? && 1 <= rows[id].rank.value <= |passing|)
    && (forall id :: id in rows && id !in passing ==> rows[id].rank == None && rows[id].band == Some(Rejected))
    && (forall a, b :: a in passing && b in passing && a != b ==>
          (rows[a].rank.value < rows[b].rank.value <==> Precedes(rows[a], a, rows[b], b)))
    && (forall k :: 1 <= k <= |passing| ==> exists id :: id in passing && rows[id].rank == Some(k))
  }

  /** After the run is scored, and after any number of corrections whatever they say, the ranking is in order. */
  lemma CorrectedRunIsRanked(spec: EvaluationSpec, rows: Rows, history: seq<Correction>)
    requires AllSound(spec, rows)
    ensures
      var after := AfterCorrections(spec, ScoredRun(spec, rows), history);
      && after.Keys == rows.Keys
      && Ordered(after, GatePassers(spec, after))
      && ScoredRun(spec, after) == after
      && Reranked(after) == after
  {
    hide *;
    RerankAfterScoreRunIsNoOp(spec, rows);
    CorrectionsSettle(spec, ScoredRun(spec, rows), history);
    var after := AfterCorrections(spec, ScoredRun(spec, rows), history);
    SettledIsScored(spec, after);
    SettledIsOrdered(spec, after);
  }

  lemma SettledPassers(spec: EvaluationSpec, rows: Rows)
    requires Settled(spec, rows)
    ensures GatePassers(spec, rows) == HardPassers(rows)
    ensures forall id :: id in rows ==> rows[id] == RankedRow(rows, HardPassers(rows), id)
    ensures forall id :: id in rows ==> (PassesGate(spec, rows[id]) <==> id in HardPassers(rows))
  {
    forall id | id in rows
      ensures rows[id].hardResult == Passed <==> PassesGate(spec, rows[id])
      ensures rows[id] == RankedRow(rows, HardPassers(rows), id)
    {
      hide ScoreOf, Ranking.Ahead;
      assert RowSettled(spec, rows[id]);
      GateOfScore(spec, rows[id]);
      assert Reranked(rows)[id] == RankedRow(rows, HardPassers(rows), id);
    }
  }

  lemma SettledIsOrdered(spec: EvaluationSpec, rows: Rows)
    requires Settled(spec, rows)
    ensures Ordered(rows, GatePassers(spec, rows))
  {
    SettledPassers(spec, rows);
    var passing := HardPassers(rows);
    forall id | id in passing
      ensures id in rows
    {
      PasserHasRow(rows, id);
    }
    hide Settled, PassesGate, HardPassers, GatePassers, Ordered, RankedRow;
    RankedIsOrdered(rows, passing);
  }

  lemma RankedIsOrdered(rows: Rows, passing: set<AppId>)
    requires forall id :: id in passing ==> id in rows
    requires forall id :: id in rows ==> rows[id] == RankedRow(rows, passing, id)
    ensures Ordered(rows, passing)
  {
    hide Ranking.Ahead, NotAfter;
    forall id | id in passing
      ensures rows[id].rank == Some(|Ahead(rows, passing, id)| + 1) && rows[id].rank.value <= |passing|
    {
      AheadWithin(rows, passing, id);
    }
    hide Precedes;
    forall a, b | a in passing && b in passing && a != b
      ensures rows[a].rank.value < rows[b].rank.value <==> Precedes(rows[a], a, rows[b], b)
    {
      RanksFollowKeys(rows, passing, a, b);
      KeyMeaning(rows, a, b);
    }
    forall k | 1 <= k <= |passing|
      ensures exists id :: id in passing && rows[id].rank == Some(k)
    {
      RankIsHeld(rows, passing, k);
    }
  }

  lemma RankIsHeld(rows: Rows, passing: set<AppId>, k: nat)
    requires forall id :: id in passing ==> id in rows && rows[id] == RankedRow(rows, passing, id)
    requires 1 <= k <= |passing|
    ensures exists id :: id in passing && rows[id].rank == Some(k)
  {
    hide Ranking.Ahead, NotAfter;
    EveryRankHeld(rows, passing, Listing(passing), k - 1);
    var id :| id in passing && |Ahead(rows, passing, id)| == k - 1;
    assert rows[id].rank == Some(k);
  }

  lemma PasserHasRow(rows: Rows, id: AppId)
    requires id in HardPassers(rows)
    ensures id in rows
  {
  }

  ghost function Listing(ids: set<AppId>): (out: seq<AppId>)
    ensures Distinct(out) && forall id :: id in out <==> id in ids
  {
    if ids == {} then []
    else
      var id :| id in ids;
      [id] + Listing(ids - {id})
  }

  // ----- whole runs -----

  /** What happens to the rows of a run; a stage that raises leaves them alone. */
  datatype Act =
    | WriteLight(app: AppId, profile: P.Profile, output: Option<Verdicts>, failed: bool, injected: bool)
    | WriteDeep(app: AppId, profile: P.Profile, deep: Verdicts, split: bool, injected: bool)
    | WriteDeepFailure(app: AppId)
    | WriteCopied(app: AppId, prior: Row)
    | ScoreRun
    | Correct(correction: Correction)

  ghost function Acted(text: P.Text, spec: EvaluationSpec, rows: Rows, act: Act): Rows {
    match act
    case WriteLight(app, profile, output, failed, injected) =>
      var stage := D.StageOf(text, spec.requirements, profile);
      if app in rows || stage.Err? then rows
      else rows[app := LightRow(spec, stage.value, output, failed, injected)]
    case WriteDeep(app, profile, deep, split, injected) =>
      var stage := D.StageOf(text, spec.requirements, profile);
      if app !in rows || stage.Err? then rows
      else rows[app := DeepRow(spec, rows[app], stage.value, deep, split, injected)]
    case WriteDeepFailure(app) => if app !in rows then rows else rows[app := DeepFailedRow(rows[app])]
    case WriteCopied(app, prior) => if app in rows then rows else rows[app := CopiedRow(prior)]
    case ScoreRun => ScoredRun(spec, rows)
    case Correct(c) => if c.app in rows then Corrected(spec, rows, c.app, c.reqId, c.kind) else rows
  }

  ghost function AfterActs(text: P.Text, spec: EvaluationSpec, acts: seq<Act>): Rows {
    if acts == [] then map[]
    else Acted(text, spec, AfterActs(text, spec, acts[..|acts| - 1]), acts[|acts| - 1])
  }

  /** Judges answer within the schema, and a copied row is one that an earlier run really held. */
  ghost predicate Possible(text: P.Text, spec: EvaluationSpec, depth: nat, act: Act)
    decreases depth, 1
  {
    match act
    case WriteLight(_, _, output, _, _) => output.Some? ==> L.JudgedKinds(output.value)
    case WriteDeep(_, _, deep, _, _) => L.JudgedKinds(deep)
    case WriteDeepFailure(_) => true
    case WriteCopied(app, prior) => HeldEarlier(text, spec, depth, app, prior)
    case ScoreRun => true
    case Correct(_) => true
  }

  ghost predicate AllPossible(text: P.Text, spec: EvaluationSpec, depth: nat, acts: seq<Act>)
    decreases depth, 2
  {
    forall i :: 0 <= i < |acts| ==> Possible(text, spec, depth, acts[i])
  }

  ghost predicate Holds(text: P.Text, spec: EvaluationSpec, acts: seq<Act>, app: AppId, row: Row) {
    app in AfterActs(text, spec, acts) && AfterActs(text, spec, acts)[app] == row
  }

  /**
   Some earlier run of the same specification held the row at some moment, be it still screening, scored or
   corrected. Its own copies come from runs before it, at most `depth` of them in a row.
   */
  ghost predicate HeldEarlier(text: P.Text, spec: EvaluationSpec, depth: nat, app: AppId, row: Row)
    decreases depth, 0
  {
    depth > 0 && exists acts :: AllPossible(text, spec, depth - 1, acts) && Holds(text, spec, acts, app, row)
  }

  lemma RescoredRowSound(spec: EvaluationSpec, row: Row)
    requires Sound(spec, row)
    ensures Sound(spec, RescoredRow(spec, row))
  {
    hide ScoreOf, ScorerFlags, GateOf;
    GateOfScore(spec, row);
  }

  lemma RankedRowSound(spec: EvaluationSpec, rows: Rows, passing: set<AppId>, id: AppId)
    requires id in rows && Sound(spec, rows[id])
    ensures Sound(spec, RankedRow(rows, passing, id))
  {
  }

  lemma RankingKeepsSound(spec: EvaluationSpec, rows: Rows, passing: set<AppId>)
    requires AllSound(spec, rows)
    ensures AllSound(spec, RankedOver(rows, passing))
  {
    hide Sound, RankedRow;
    forall id | id in rows
      ensures Sound(spec, RankedRow(rows, passing, id))
    {
      RankedRowSound(spec, rows, passing, id);
    }
  }

  lemma ScoringKeepsSound(spec: EvaluationSpec, rows: Rows)
    requires AllSound(spec, rows)
    ensures AllSound(spec, ScoredRun(spec, rows))
  {
    hide Sound, RescoredRow, RankedOver;
    forall id | id in rows
      ensures Sound(spec, RescoredRow(spec, rows[id]))
    {
      RescoredRowSound(spec, rows[id]);
    }
    RankingKeepsSound(spec, Rescored(spec, rows), GatePassers(spec, rows));
  }

  lemma CorrectedRowSound(spec: EvaluationSpec, row: Row, reqId: string, kind: VerdictKind)
    ensures Sound(spec, CorrectedRow(spec, row, reqId, kind))
  {
    hide ScoreOf, ScorerFlags, GateOf;
    GateOfScore(spec, CorrectedRow(spec, row, reqId, kind));
  }

  lemma CorrectionKeepsSound(spec: EvaluationSpec, rows: Rows, app: AppId, reqId: string, kind: VerdictKind)
    requires app in rows && AllSound(spec, rows)
    ensures AllSound(spec, Corrected(spec, rows, app, reqId, kind))
  {
    hide Sound, CorrectedRow, RankedOver, Refused;
    CorrectedRowSound(spec, rows[app], reqId, kind);
    var replaced := rows[app := CorrectedRow(spec, rows[app], reqId, kind)];
    RankingKeepsSound(spec, replaced, HardPassers(replaced));
  }

  lemma ActKeepsSound(text: P.Text, spec: EvaluationSpec, rows: Rows, depth: nat, act: Act)
    requires UniqueIds(spec.requirements) && AllSound(spec, rows) && Possible(text, spec, depth, act)
    requires act.WriteCopied? ==> Sound(spec, act.prior)
    ensures AllSound(spec, Acted(text, spec, rows, act))
  {
    hide LightRow, DeepRow, DeepFailedRow, CopiedRow, Sound, D.StageOf, UniqueIds, ScoredRun, Corrected, HeldEarlier;
    match act
    case WriteLight(_, profile, output, failed, injected) =>
      if D.StageOf(text, spec.requirements, profile).Ok? {
        LightRowSound(text, spec, profile, output, failed, injected);
      }
    case WriteDeep(app, profile, deep, split, injected) =>
      if app in rows && D.StageOf(text, spec.requirements, profile).Ok? {
        DeepRowSound(spec, rows[app], D.StageOf(text, spec.requirements, profile).value, deep, split, injected);
      }
    case WriteDeepFailure(app) =>
      if app in rows {
        DeepFailureSound(spec, rows[app]);
      }
    case WriteCopied(app, prior) => CopiedSound(spec, prior);
    case ScoreRun => ScoringKeepsSound(spec, rows);
    case Correct(c) =>
      if c.app in rows {
        CorrectionKeepsSound(spec, rows, c.app, c.reqId, c.kind);
      }
  }

  /** In every run, at every moment, a stored "pass" means a passing gate; a copied row brings that with it. */
  lemma {:induction false} ActsAreSound(text: P.Text, spec: EvaluationSpec, depth: nat, acts: seq<Act>)
    requires UniqueIds(spec.requirements) && AllPossible(text, spec, depth, acts)
    ensures AllSound(spec, AfterActs(text, spec, acts))
    decreases depth, 1, |acts|
  {
    hide Acted, UniqueIds, Sound, Possible;
    if acts != [] {
      var init, last := acts[..|acts| - 1], acts[|acts| - 1];
      ActsAreSound(text, spec, depth, init);
      if last.WriteCopied? {
        PriorIsSound(text, spec, depth, last);
      }
      ActKeepsSound(text, spec, AfterActs(text, spec, init), depth, last);
    }
  }

  lemma {:induction false} PriorIsSound(text: P.Text, spec: EvaluationSpec, depth: nat, act: Act)
    requires UniqueIds(spec.requirements) && act.WriteCopied? && Possible(text, spec, depth, act)
    ensures Sound(spec, act.prior)
    decreases depth, 0
  {
    hide UniqueIds, Sound, Possible, AllPossible, Holds, AllSound, AfterActs;
    CopyWasHeld(text, spec, depth, act);
    var earlier :| AllPossible(text, spec, depth - 1, earlier) && Holds(text, spec, earlier, act.app, act.prior);
    ActsAreSound(text, spec, depth - 1, earlier);
    HeldIsSound(text, spec, earlier, act.app, act.prior);
  }

  lemma HeldIsSound(text: P.Text, spec: EvaluationSpec, acts: seq<Act>, app: AppId, row: Row)
    requires AllSound(spec, AfterActs(text, spec, acts)) && Holds(text, spec, acts, app, row)
    ensures Sound(spec, row)
  {
    hide Sound, AfterActs;
  }

  lemma CopyWasHeld(text: P.Text, spec: EvaluationSpec, depth: nat, act: Act)
    requires act.WriteCopied? && Possible(text, spec, depth, act)
    ensures HeldEarlier(text, spec, depth, act.app, act.prior)
  {
    hide HeldEarlier;
  }

  /**
   From an empty run, through anything that may happen to its rows, the scoring pass and any corrections,
   there is one ranking.
   */
  lemma OneRanking(text: P.Text, spec: EvaluationSpec, depth: nat, acts: seq<Act>, history: seq<Correction>)
    requires UniqueIds(spec.requirements) && AllPossible(text, spec, depth, acts)
    ensures
      var screened := AfterActs(text, spec, acts);
      var after := AfterCorrections(spec, ScoredRun(spec, screened), history);
      && Reranked(ScoredRun(spec, screened)) == ScoredRun(spec, screened)
      && after.Keys == screened.Keys
      && Ordered(after, GatePassers(spec, after))
      && ScoredRun(spec, after) == after
      && Reranked(after) == after
  {
    hide *;
    ActsAreSound(text, spec, depth, acts);
    RerankAfterScoreRunIsNoOp(spec, AfterActs(text, spec, acts));
    CorrectedRunIsRanked(spec, AfterActs(text, spec, acts), history);
  }

  // ----- when the two ranking sites agree -----

  /** No candidate with a passing gate is stored as anything but passed. */
  ghost predicate NobodyHeldBack(spec: EvaluationSpec, rows: Rows) {
    forall id :: id in rows && PassesGate(spec, rows[id]) ==> rows[id].hardResult == Passed
  }

  lemma ScoredPassers(spec: EvaluationSpec, rows: Rows)
    ensures forall id :: id in HardPassers(ScoredRun(spec, rows)) <==>
                         id in rows && PassesGate(spec, rows[id]) && rows[id].hardResult == Passed
  {
    hide ScoreOf, ScorerFlags, PassesGate, Ranking.Ahead;
    forall id | id in rows
      ensures ScoredRun(spec, rows)[id].hardResult == if PassesGate(spec, rows[id]) then rows[id].hardResult else Failed
    {
      GateOfScore(spec, rows[id]);
    }
  }

  /** rerank_run confirms score_run exactly when score_run found nobody held back: a test on the rows before it. */
  lemma SitesAgreeExactly(spec: EvaluationSpec, rows: Rows)
    ensures Reranked(ScoredRun(spec, rows)) == ScoredRun(spec, rows) <==> NobodyHeldBack(spec, rows)
  {
    hide ScoredRun, Reranked, NobodyHeldBack;
    if NobodyHeldBack(spec, rows) {
      NobodyMoved(spec, rows);
    } else {
      SomebodyMoved(spec, rows);
    }
  }

  lemma NobodyMoved(spec: EvaluationSpec, rows: Rows)
    requires NobodyHeldBack(spec, rows)
    ensures Reranked(ScoredRun(spec, rows)) == ScoredRun(spec, rows)
  {
    hide Rescored, HardPassers, GatePassers, NobodyHeldBack, RankedOver;
    SamePassers(spec, rows);
    RankedTwice(Rescored(spec, rows), GatePassers(spec, rows));
  }

  lemma SomebodyMoved(spec: EvaluationSpec, rows: Rows)
    requires !NobodyHeldBack(spec, rows)
    ensures Reranked(ScoredRun(spec, rows)) != ScoredRun(spec, rows)
  {
    hide ScoreOf, ScorerFlags, PassesGate, Ranking.Ahead, HardPassers, RescoredRow;
    var id :| id in rows && PassesGate(spec, rows[id]) && rows[id].hardResult != Passed;
    ScoredPassers(spec, rows);
    assert ScoredRun(spec, rows)[id].rank.Some?;
    assert Reranked(ScoredRun(spec, rows))[id].rank == None;
  }

  lemma SamePassers(spec: EvaluationSpec, rows: Rows)
    requires NobodyHeldBack(spec, rows)
    ensures HardPassers(ScoredRun(spec, rows)) == GatePassers(spec, rows)
  {
    ScoredPassers(spec, rows);
    hide PassesGate, ScoredRun, HardPassers;
    var hard, gate := HardPassers(ScoredRun(spec, rows)), GatePassers(spec, rows);
    forall id
      ensures id in hard <==> id in gate
    {
    }
    assert hard == gate;
  }

  // ----- why ids must be unique -----

  /** Two requirements under one id: a hard rule nobody meets, then a scored rule everybody meets. */
  const NEVER_MET := Requirement("r", "c", Hard, Deterministic, Some(DeterministicCheck(P.Any([]), None, None)), None,
                                 AsUnknown, 1.0, None)
  const ALWAYS_MET := NEVER_MET.(kind := Scored, deterministic := Some(DeterministicCheck(P.All([]), None, None)))
  const TWICE := EvaluationSpec(map[], 0.0, [NEVER_MET, ALWAYS_MET])

  lemma TwiceStaged(text: P.Text, profile: P.Profile)
    ensures D.StageOf(text, TWICE.requirements, profile)
         == Ok(D.Stage(map["r" := D.RuleVerdict(ALWAYS_MET, P.Pass, false)], true, false, ["r"]))
  {
    var reqs := TWICE.requirements;
    assert reqs[..0] == [] && reqs[..2] == reqs;
    D.StageSnoc(text, reqs, profile, 0);
    D.StageSnoc(text, reqs, profile, 1);
    assert D.Checked(text, NEVER_MET, profile) == Ok(Some(D.RuleVerdict(NEVER_MET, P.Fail, false)));
    assert D.Checked(text, ALWAYS_MET, profile) == Ok(Some(D.RuleVerdict(ALWAYS_MET, P.Pass, false)));
    hide D.StageOf, D.Checked, P.EvaluateWithBorderline;
    var v, w := D.RuleVerdict(NEVER_MET, P.Fail, false), D.RuleVerdict(ALWAYS_MET, P.Pass, false);
    assert map["r" := v]["r" := w] == map["r" := w];
    assert [] + ["r"] == ["r"];
  }

  lemma TwiceMerged(met: Verdict)
    requires met.kind == Met
    ensures GateOf(TWICE.requirements, MergeOf(TWICE.requirements, map["r" := met], map[])).Passes()
  {
    var reqs := TWICE.requirements;
    assert reqs[..|reqs| - 1] == [NEVER_MET];
    assert [NEVER_MET][..0] == [];
    assert MergeOf([NEVER_MET], map["r" := met], map[]) == map["r" := met];
    assert map["r" := met]["r" := met] == map["r" := met];
    assert MergeOf(reqs, map["r" := met], map[]) == map["r" := met];
    GateMeaning(reqs, map["r" := met]);
  }

  /**
   The later rule's verdict replaces the earlier one's, so the candidate is stored as failed although the
   gate passes, and the two ranking sites disagree about it.
   */
  lemma DuplicateIdsMislead(text: P.Text, profile: P.Profile, app: AppId)
    ensures D.StageOf(text, TWICE.requirements, profile).Ok?
    ensures
      var row := LightRow(TWICE, D.StageOf(text, TWICE.requirements, profile).value, None, false, false);
      !Sound(TWICE, row) && Reranked(ScoredRun(TWICE, map[app := row])) != ScoredRun(TWICE, map[app := row])
  {
    TwiceStaged(text, profile);
    hide D.StageOf, MergeOf, GateOf, ScoreOf, ScoredRun, Reranked;
    var stage := D.StageOf(text, TWICE.requirements, profile).value;
    var row := LightRow(TWICE, stage, None, false, false);
    TwiceMerged(D.RuleVerdict(ALWAYS_MET, P.Pass, false));
    GateOfScore(TWICE, row);
    var rows := map[app := row];
    assert app in rows && rows[app] == row;
    SitesAgreeExactly(TWICE, rows);
  }

  // ----- what a correction forgets -----

  predicate FromElsewhere(flag: Flag) {
    !flag.FromScorer?
  }

  /**
   A correction rebuilds the result from the scorer alone, so a flag raised anywhere else (a failed deep
   analysis, disagreeing votes, a suspected injection) survives it only if there was none.
   */
  lemma CorrectionForgetsFlags(spec: EvaluationSpec, row: Row, reqId: string, kind: VerdictKind)
    ensures forall flag :: flag in CorrectedRow(spec, row, reqId, kind).flags ==> !FromElsewhere(flag)
    ensures (forall flag :: flag in row.flags && FromElsewhere(flag) ==>
               flag in CorrectedRow(spec, row, reqId, kind).flags)
       <==> (forall flag :: flag in row.flags ==> !FromElsewhere(flag))
  {
    hide ScoreOf;
  }
}
