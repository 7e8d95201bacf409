/** What rules, judges and people put on file for a candidate, requirement by requirement. */
module StageMeaning {
  import opened Wrappers
  import opened Applications
  import opened Spec
  import opened Scoring
  import opened Assemble
  import opened Deterministic
  import opened Evaluations
  import opened EvaluationLaws
  import R = Ranking
  import A = Anchors
  import P = Predicates
  import PL = PredicateLaws
  import PM = PredicateMeaning
  import L = PipelineLaws

  // ----- rules -----

  /** With unique ids the stage holds, for every requirement with a rule, what its own check said. */
  lemma {:induction false} StageHolds(text: P.Text, reqs: seq<Requirement>, profile: P.Profile, i: nat)
    requires UniqueIds(reqs) && i < |reqs| && reqs[i].deterministic.Some?
    requires StageOf(text, reqs, profile).Ok?
    ensures
      var verdicts := StageOf(text, reqs, profile).value.verdicts;
      reqs[i].reqId in verdicts && Checked(text, reqs[i], profile) == Ok(Some(verdicts[reqs[i].reqId]))
  {
    hide P.EvaluateWithBorderline, KnocksOut, NearMiss, RuleVerdict;
    var n := |reqs| - 1;
    StageSnoc(text, reqs, profile, n);
    assert reqs[..n + 1] == reqs;
    if i < n {
      StageHolds(text, reqs[..n], profile, i);
      assert reqs[i].reqId != reqs[n].reqId;
    }
  }

  /** The rule's strict result, and whether it was a near miss. */
  ghost predicate Read(text: P.Text, req: Requirement, profile: P.Profile, result: P.Tri, near: bool) {
    && req.deterministic.Some?
    && P.Evaluate(text, req.deterministic.value.rule, profile) == Ok(result)
    && P.EvaluateWithBorderline(
         text, req.deterministic.value.rule, profile, req.deterministic.value.borderlineTolerance)
       == Ok((result, near))
  }

  /**
   A rule that passes is met, one that fails is not; one that cannot tell fails only where silence counts as
   failing. It scores 1, 0 or nothing, is certain, and knows of a near miss.
   */
  ghost predicate SaysRule(v: Verdict, req: Requirement, result: P.Tri, near: bool) {
    && (v.kind == Met <==> result == P.Pass)
    && (v.kind == NotMet <==> result == P.Fail || (result == P.Tri.Unknown && req.missingPolicy == AsFailure))
    && (v.kind == VerdictKind.Unknown <==> result == P.Tri.Unknown && req.missingPolicy != AsFailure)
    && (v.score == if v.kind == Met then Some(1.0) else if v.kind == NotMet then Some(0.0) else None)
    && v.confidence == Some(1.0) && v.source == Some(ByRule) && v.reqId == req.reqId && v.borderline == near
    && (v.infoStatus == Some(if v.kind == VerdictKind.Unknown then Missing else Explicit))
  }

  lemma RuleOnFile(text: P.Text, reqs: seq<Requirement>, profile: P.Profile, i: nat) returns (result: P.Tri, near: bool)
    requires UniqueIds(reqs) && i < |reqs| && reqs[i].deterministic.Some?
    requires StageOf(text, reqs, profile).Ok?
    ensures
      var verdicts := StageOf(text, reqs, profile).value.verdicts;
      && reqs[i].reqId in verdicts && Read(text, reqs[i], profile, result, near)
      && SaysRule(verdicts[reqs[i].reqId], reqs[i], result, near)
  {
    StageHolds(text, reqs, profile, i);
    hide StageOf;
    var check := reqs[i].deterministic.value;
    PL.BorderlineReports(text, check.rule, profile, check.borderlineTolerance);
    RuleIsSound(text, reqs[i], profile);
    PM.NearMissMeaning(text, check.rule, profile, check.borderlineTolerance);
    hide P.Evaluate, P.EvaluateWithBorderline, PL.Fault;
    result, near := P.EvaluateWithBorderline(text, check.rule, profile, check.borderlineTolerance).value.0,
      P.EvaluateWithBorderline(text, check.rule, profile, check.borderlineTolerance).value.1;
  }

  lemma RuleIsSound(text: P.Text, req: Requirement, profile: P.Profile)
    requires req.deterministic.Some? && Checked(text, req, profile).Ok?
    ensures PL.Fault(req.deterministic.value.rule) == None
  {
    var check := req.deterministic.value;
    PL.BorderlineReports(text, check.rule, profile, check.borderlineTolerance);
    hide P.EvaluateWithBorderline, PL.Fault;
  }

  /** A hard rule that clearly fails, or a disqualifier that applies. */
  ghost predicate Excludes(text: P.Text, req: Requirement, profile: P.Profile) {
    || (req.kind == Disqualifier && exists near :: Read(text, req, profile, P.Pass, near))
    || (req.kind == Hard && req.evaluator != Semantic
        && (Read(text, req, profile, P.Fail, false)
            || (req.missingPolicy == AsFailure && Read(text, req, profile, P.Tri.Unknown, false))))
  }

  lemma ExcludesMeaning(text: P.Text, reqs: seq<Requirement>, profile: P.Profile, i: nat)
    requires UniqueIds(reqs) && i < |reqs| && StageOf(text, reqs, profile).Ok?
    ensures Out(reqs, StageOf(text, reqs, profile).value.verdicts, i) <==> Excludes(text, reqs[i], profile)
  {
    StageIsDecided(text, reqs, profile);
    if reqs[i].deterministic.Some? {
      var result, near := RuleOnFile(text, reqs, profile, i);
      hide StageOf, P.Evaluate, P.EvaluateWithBorderline;
    } else {
      hide StageOf;
    }
  }

  /** A candidate is knocked out exactly when some requirement excludes it by its rule. */
  lemma KnockoutMeaning(text: P.Text, reqs: seq<Requirement>, profile: P.Profile)
    requires UniqueIds(reqs) && StageOf(text, reqs, profile).Ok?
    ensures StageOf(text, reqs, profile).value.knockedOut <==>
              exists i :: 0 <= i < |reqs| && Excludes(text, reqs[i], profile)
  {
    StageIsDecided(text, reqs, profile);
    hide StageOf, Excludes, Covers, Explains;
    var verdicts := StageOf(text, reqs, profile).value.verdicts;
    forall i | 0 <= i < |reqs|
      ensures Out(reqs, verdicts, i) <==> Excludes(text, reqs[i], profile)
    {
      ExcludesMeaning(text, reqs, profile, i);
    }
    assert forall i :: Out(reqs, verdicts, i) ==> 0 <= i < |reqs|;
  }

  // ----- judgments -----

  /** A requirement without a ladder of its own is judged in quarters. */
  lemma RungsMeaning(req: Requirement, rung: real)
    ensures req.semantic.Some? && req.semantic.value.anchors != [] ==>
              (rung in A.Rungs(req) <==> rung in req.semantic.value.anchors)
    ensures req.semantic == None || req.semantic.value.anchors == [] ==>
              (rung in A.Rungs(req) <==>
                 rung == 0.0 || rung == 0.25 || rung == 0.5 || rung == 0.75 || rung == 1.0)
  {
    var ladder := A.DEFAULT_LADDER;
    assert ladder[0] == 1.0 && ladder[1] == 0.75 && ladder[2] == 0.5 && ladder[3] == 0.25 && ladder[4] == 0.0;
  }

  /** The judgment as it was given, with its score on the rung nearest to it. */
  ghost predicate Filed(v: Option<Verdict>, req: Requirement, judged: Verdict) {
    && v.Some?
    && v.value.kind == judged.kind && v.value.confidence == judged.confidence && v.value.source == judged.source
    && v.value.infoStatus == judged.infoStatus && v.value.borderline == judged.borderline
    && (judged.score == None ==> v.value.score == None)
    && (judged.score.Some? ==>
          v.value.score.Some? && A.Nearest(A.Rungs(req), judged.score.value, v.value.score.value))
  }

  lemma AnchoredIsFiled(req: Requirement, judged: Verdict)
    ensures Filed(Anchored(req, Some(judged)), req, judged)
  {
    if judged.score.Some? {
      A.SnapIsNearest(A.Rungs(req), judged.score.value);
    }
    hide A.SnapTo, A.Nearest, A.Rungs;
  }

  /** What one requirement ends up with, by who evaluates it. */
  ghost predicate Outcome(v: Option<Verdict>, req: Requirement, det: Option<Verdict>, judged: Option<Verdict>) {
    match req.evaluator
    case Deterministic => v == det
    case Semantic => if judged.Some? then Filed(v, req, judged.value) else v == det
    case Hybrid =>
      if judged == None then v == det
      else if det == None then Filed(v, req, judged.value)
      else if Gates(req.kind) then WorseHalf(v, req, det.value, judged.value)
      else if judged.value.kind != VerdictKind.Unknown then Filed(v, req, judged.value)
      else v == det
  }

  /** Disqualified is worse than not met, that than unknown, that than partially met, and met is best. */
  function Rank(kind: VerdictKind): int {
    if kind == Disqualified then 5 else if kind == NotMet then 4 else if kind == VerdictKind.Unknown then 3
    else if kind == PartiallyMet then 2 else 1
  }

  /** On a gate the worse kind counts, with its worth, on the judge's word and certainty; a near miss shows. */
  ghost predicate WorseHalf(v: Option<Verdict>, req: Requirement, det: Verdict, judged: Verdict) {
    && v.Some?
    && (v.value.kind == det.kind || v.value.kind == judged.kind)
    && Rank(v.value.kind) >= Rank(det.kind) && Rank(v.value.kind) >= Rank(judged.kind)
    && v.value.confidence == judged.confidence && v.value.source == judged.source
    && v.value.infoStatus == judged.infoStatus
    && (v.value.borderline <==> det.borderline || judged.borderline)
    && (Rank(det.kind) >= Rank(judged.kind) ==> v.value.score == EffectiveScore(det))
  }

  lemma MergedMeaning(req: Requirement, det: Option<Verdict>, judged: Option<Verdict>)
    ensures Outcome(Merged(req, det, judged), req, det, judged)
  {
    if judged.Some? {
      AnchoredIsFiled(req, judged.value);
    }
    hide Anchored, A.Nearest, A.Rungs, EffectiveScore;
  }

  /** With unique ids the merge holds for every requirement exactly what its evaluator makes of rule and judgment. */
  lemma OutcomeOnFile(reqs: seq<Requirement>, det: Verdicts, judged: Verdicts, i: nat)
    requires UniqueIds(reqs) && i < |reqs|
    ensures Outcome(VerdictOf(MergeOf(reqs, det, judged), reqs[i].reqId), reqs[i],
                    VerdictOf(det, reqs[i].reqId), VerdictOf(judged, reqs[i].reqId))
  {
    hide MergeOf, Merged, Outcome;
    MergeMeaning(reqs, det, judged);
    MergedMeaning(reqs[i], VerdictOf(det, reqs[i].reqId), VerdictOf(judged, reqs[i].reqId));
  }

  // ----- what the stages store -----

  /** The judgment deep analysis goes by: its own, and where it is silent the light one on file. */
  function DeepOrStored(row: R.Row, deep: Verdicts, id: string): Option<Verdict> {
    if id in deep then Some(deep[id])
    else if id in row.verdicts && row.verdicts[id].source == Some(ByLight) then Some(row.verdicts[id])
    else None
  }

  /** After deep analysis every requirement holds what its evaluator makes of the rule and the deep judgment. */
  lemma DeepOnFile(spec: EvaluationSpec, row: R.Row, stage: Stage, deep: Verdicts, split: bool, injected: bool, i: nat)
    requires UniqueIds(spec.requirements) && i < |spec.requirements|
    ensures
      var id := spec.requirements[i].reqId;
      Outcome(VerdictOf(DeepRow(spec, row, stage, deep, split, injected).verdicts, id), spec.requirements[i],
              VerdictOf(stage.verdicts, id), DeepOrStored(row, deep, id))
  {
    hide MergeOf, Outcome, ScoreOf, ScorerFlags;
    var id, judged := spec.requirements[i].reqId, StoredLight(row.verdicts) + deep;
    assert VerdictOf(judged, id) == DeepOrStored(row, deep, id);
    OutcomeOnFile(spec.requirements, stage.verdicts, judged, i);
  }

  /** A deep judge who finds a hard semantic requirement not met fails the candidate, whatever was on file. */
  lemma DeepNotMetFails(spec: EvaluationSpec, row: R.Row, stage: Stage, deep: Verdicts, split: bool,
                        injected: bool, i: nat)
    requires UniqueIds(spec.requirements) && i < |spec.requirements|
    requires spec.requirements[i].kind == Hard && spec.requirements[i].evaluator == Semantic
    requires spec.requirements[i].reqId in deep && deep[spec.requirements[i].reqId].kind == NotMet
    ensures DeepRow(spec, row, stage, deep, split, injected).hardResult == R.Failed
  {
    DeepOnFile(spec, row, stage, deep, split, injected, i);
    var after := DeepRow(spec, row, stage, deep, split, injected);
    GateMeaning(spec.requirements, after.verdicts);
    DeepRowSound(spec, row, stage, deep, split, injected);
    DeepPassesOrFails(spec, row, stage, deep, split, injected);
    hide DeepRow, GateOf, FailedIds, UnverifiedIds, A.Nearest, A.Rungs, ShowsScore;
    assert FailsGate(spec.requirements[i], after.verdicts);
  }

  /** The row shows what the scorer makes of its verdicts: score, confidence, and whether to review and why. */
  ghost predicate ShowsScore(spec: EvaluationSpec, row: R.Row) {
    var s := ScoreOf(spec, row.verdicts);
    && row.score == Some(s.finalScore) && row.confidence == s.confidence
    && forall reason :: R.FromScorer(reason) in row.flags <==> reason in s.reviewReasons
  }

  lemma DeepPassesOrFails(spec: EvaluationSpec, row: R.Row, stage: Stage, deep: Verdicts, split: bool, injected: bool)
    ensures
      var after := DeepRow(spec, row, stage, deep, split, injected);
      && (after.hardResult == R.Passed || after.hardResult == R.Failed) && after.deep
      && after.rank == row.rank && after.band == row.band
      && (R.VoteDisagreement in after.flags <==> split) && (R.InjectionDetected in after.flags <==> injected)
      && R.LightScreenFailed !in after.flags && R.DeepAnalysisFailed !in after.flags
      && ShowsScore(spec, after)
  {
    hide ScoreOf, MergeOf;
  }

  /** Light screening files the same, from the judge's answer if there is one and the rules let it count. */
  lemma LightOnFile(spec: EvaluationSpec, stage: Stage, output: Option<Verdicts>, failed: bool, injected: bool, i: nat)
    requires UniqueIds(spec.requirements) && i < |spec.requirements|
    ensures
      var id := spec.requirements[i].reqId;
      var heard := output.Some? && !(stage.knockedOut && !stage.borderline);
      Outcome(VerdictOf(LightRow(spec, stage, output, failed, injected).verdicts, id), spec.requirements[i],
              VerdictOf(stage.verdicts, id), if heard then VerdictOf(output.value, id) else None)
  {
    hide MergeOf, Outcome, ScoreOf, ScorerFlags;
    var judged := AdmittedJudgments(stage, if output == None then map[] else output.value);
    OutcomeOnFile(spec.requirements, stage.verdicts, judged, i);
  }

  /** A near miss is stored as such exactly when the rules saw one, and the flags say what happened. */
  lemma LightResultMeaning(text: P.Text, spec: EvaluationSpec, profile: P.Profile, output: Option<Verdicts>,
                           failed: bool, injected: bool)
    requires UniqueIds(spec.requirements) && StageOf(text, spec.requirements, profile).Ok?
    requires output.Some? ==> L.JudgedKinds(output.value)
    ensures
      var stage := StageOf(text, spec.requirements, profile).value;
      var row := LightRow(spec, stage, output, failed, injected);
      && (row.hardResult == R.Borderline <==> stage.borderline)
      && (row.hardResult == R.Passed <==> PassesGate(spec, row))
      && (R.LightScreenFailed in row.flags <==> failed) && (R.InjectionDetected in row.flags <==> injected)
      && !row.deep && row.rank == None && row.band == None && ShowsScore(spec, row)
  {
    hide StageOf, ScoreOf, MergeOf, GateOf, LightRow, PassesGate, ShowsScore;
    LightRowSound(text, spec, profile, output, failed, injected);
    var stage := StageOf(text, spec.requirements, profile).value;
    var row := LightRow(spec, stage, output, failed, injected);
    LightRowFlags(spec, stage, output, failed, injected);
  }

  lemma LightRowFlags(spec: EvaluationSpec, stage: Stage, output: Option<Verdicts>, failed: bool, injected: bool)
    ensures
      var row := LightRow(spec, stage, output, failed, injected);
      && (row.hardResult == R.Borderline <==> stage.borderline)
      && (R.LightScreenFailed in row.flags <==> failed) && (R.InjectionDetected in row.flags <==> injected)
      && !row.deep && row.rank == None && row.band == None && ShowsScore(spec, row)
  {
    hide ScoreOf, MergeOf;
  }

  /** A deep failure changes the flag and the stage and nothing else. */
  lemma DeepFailureMeaning(row: R.Row)
    ensures
      var after := DeepFailedRow(row);
      && after.deep && (forall flag :: flag in after.flags <==> flag in row.flags || flag == R.DeepAnalysisFailed)
      && after.verdicts == row.verdicts && after.hardResult == row.hardResult && after.score == row.score
      && after.confidence == row.confidence && after.band == row.band && after.rank == row.rank
  {
  }

  /** A row taken over from an earlier run keeps all but its place in that run's ranking. */
  lemma CopyMeaning(prior: R.Row)
    ensures
      var copy := CopiedRow(prior);
      && copy.rank == None && copy.band == None
      && copy.verdicts == prior.verdicts && copy.hardResult == prior.hardResult && copy.score == prior.score
      && copy.confidence == prior.confidence && copy.flags == prior.flags && copy.deep == prior.deep
  {
  }

  /** Scoring a run leaves what is on file as it is, and drops no flag. */
  lemma ScoringKeepsFile(spec: EvaluationSpec, rows: R.Rows, id: AppId)
    requires id in rows
    ensures
      id in ScoredRun(spec, rows)
      && ScoredRun(spec, rows)[id].verdicts == rows[id].verdicts && rows[id].flags <= ScoredRun(spec, rows)[id].flags
      && ScoredRun(spec, rows)[id].deep == rows[id].deep
  {
    hide ScoreOf, ScorerFlags, R.Ahead, PassesGate;
  }

  /** An accepted correction puts the person's verdict on file, certain and by kind, and touches no other verdict. */
  lemma CorrectionOnFile(spec: EvaluationSpec, rows: R.Rows, app: AppId, reqId: string, kind: VerdictKind)
    requires app in rows && Refused(spec, reqId, kind) == None
    ensures
      var before, after := rows[app].verdicts, Corrected(spec, rows, app, reqId, kind);
      && app in after && reqId in after[app].verdicts
      && after[app].verdicts[reqId].kind == kind && after[app].verdicts[reqId].source == Some(ByHuman)
      && after[app].verdicts[reqId].confidence == Some(1.0) && after[app].verdicts[reqId].score == None
      && (reqId in before ==> after[app].verdicts[reqId].infoStatus == before[reqId].infoStatus)
      && (forall id :: id != reqId ==> VerdictOf(after[app].verdicts, id) == VerdictOf(before, id))
      && (forall other :: other in rows && other != app ==>
            other in after && after[other].verdicts == rows[other].verdicts)
  {
    hide ScoreOf, ScorerFlags, R.Ahead, Refused;
  }

  /** A correction is refused exactly for a kind no person may give, or a requirement the job does not have. */
  lemma RefusedMeaning(spec: EvaluationSpec, reqId: string, kind: VerdictKind)
    ensures Refused(spec, reqId, kind) == None <==>
              && kind != Disqualified
              && exists i :: 0 <= i < |spec.requirements| && spec.requirements[i].reqId == reqId
  {
  }
}
