/** Laws that cross the stages: rules, judgments, merging, gate and score. */
module PipelineLaws {
  import opened Wrappers
  import opened Spec
  import opened Scoring
  import opened ScoringLaws
  import opened Assemble
  import opened Deterministic
  import P = Predicates
  import A = Anchors
  import PL = PredicateLaws

  // ----- the two halves of a gate -----

  /** A failed hard rule stays failed under every judgment but `disqualified`, which no judge may return. */
  lemma RuleFailureStands(req: Requirement, det: Verdict, judged: Option<Verdict>, merged: Verdicts)
    requires req.kind == Hard && req.evaluator != Semantic && det.kind == NotMet
    requires VerdictOf(merged, req.reqId) == Merged(req, Some(det), judged)
    ensures FailsGate(req, merged) <==>
              req.evaluator == Evaluator.Deterministic || judged == None || judged.value.kind != Disqualified
  {
  }

  /** A hard requirement with two halves fails when either half says so, or when silence counts as failing. */
  lemma EitherHalfFailsHard(req: Requirement, det: Verdict, judged: Verdict, merged: Verdicts)
    requires req.kind == Hard && req.evaluator == Hybrid
    requires det.kind != Disqualified && judged.kind != Disqualified
    requires VerdictOf(merged, req.reqId) == Merged(req, Some(det), Some(judged))
    ensures FailsGate(req, merged) <==>
              || det.kind == NotMet || judged.kind == NotMet
              || (req.missingPolicy == AsFailure
                  && (det.kind == VerdictKind.Unknown || judged.kind == VerdictKind.Unknown))
  {
  }

  /**
   A disqualifier with two halves rejects only when both agree that it applies: `met` is the mildest
   severity, so either half can lift the other's finding. The same goes for a penalty.
   */
  lemma BothHalvesMustDisqualify(req: Requirement, det: Verdict, judged: Verdict, merged: Verdicts)
    requires req.kind == Disqualifier && req.evaluator == Hybrid
    requires det.kind != Disqualified && judged.kind != Disqualified
    requires VerdictOf(merged, req.reqId) == Merged(req, Some(det), Some(judged))
    ensures FailsGate(req, merged) <==> det.kind == Met && judged.kind == Met
  {
  }

  lemma BothHalvesMustPenalise(req: Requirement, det: Verdict, judged: Verdict, merged: Verdicts)
    requires req.kind == Penalty && req.evaluator == Hybrid
    requires det.kind != Disqualified && judged.kind != Disqualified
    requires VerdictOf(merged, req.reqId) == Merged(req, Some(det), Some(judged))
    ensures TakesPenalty(req, merged) <==> det.kind == Met && judged.kind == Met
  {
  }

  /** A disqualifier with both halves, whose rule looks for a listed skill. */
  function SkillDisqualifier(): Requirement {
    var check := DeterministicCheck(P.Leaf("skills.canonical", P.Contains, P.JStr("telemarketing")), None, None);
    Requirement("d", "general", Disqualifier, Hybrid, Some(check), Some(SemanticCheck([])), AsUnknown, 1.0, None)
  }

  lemma NoSkillsListed(text: P.Text)
    ensures P.Evaluate(text, SkillDisqualifier().deterministic.value.rule, PL.EMPTY_PROFILE) == Ok(P.Tri.Unknown)
  {
    var path := "skills.canonical";
    assert path[0] == 's' && P.LANGUAGE_PREFIX[0] == 'l';
    assert forall code :: !P.LanguagePath(path, code) by {
      forall code
        ensures !P.LanguagePath(path, code)
      {
        assert (P.LANGUAGE_PREFIX + code + P.LANGUAGE_SUFFIX)[0] == 'l';
      }
    }
    assert P.LanguageCode(path) == None;
    assert path in P.REGISTRY_PATHS;
  }

  lemma SkillsChecked(text: P.Text)
    ensures Checked(text, SkillDisqualifier(), PL.EMPTY_PROFILE)
         == Ok(Some(RuleVerdict(SkillDisqualifier(), P.Tri.Unknown, false)))
  {
    hide P.Evaluate;
    NoSkillsListed(text);
  }

  lemma SkillStaged(text: P.Text)
    ensures
      var det := RuleVerdict(SkillDisqualifier(), P.Tri.Unknown, false);
      StageOf(text, [SkillDisqualifier()], PL.EMPTY_PROFILE) == Ok(Stage(map["d" := det], false, false, []))
  {
    var reqs := [SkillDisqualifier()];
    SkillsChecked(text);
    hide Checked;
    StageSnoc(text, reqs, PL.EMPTY_PROFILE, 0);
    assert reqs[..0] == [] && reqs[..1] == reqs;
  }

  lemma DoubtMerged(req: Requirement, det: Verdict, judged: Verdict)
    requires req.kind == Disqualifier && req.evaluator == Hybrid
    requires det.kind == VerdictKind.Unknown && judged.kind == Met
    ensures GateOf([req], MergeOf([req], map[req.reqId := det], map[req.reqId := judged])).Passes()
  {
    var dets, judgments := map[req.reqId := det], map[req.reqId := judged];
    assert [req][0] == req && UniqueIds([req]);
    MergeMeaning([req], dets, judgments);
    hide MergeOf, GateOf;
    BothHalvesMustDisqualify(req, det, judged, MergeOf([req], dets, judgments));
    hide FailsGate, Merged;
    GateMeaning([req], MergeOf([req], dets, judgments));
  }

  /**
   A light judge finds that the disqualifier applies, the rule could not read its field, and the candidate
   passes the gate: the run admits the judgment, and the rule's doubt outweighs it.
   */
  lemma DoubtLiftsDisqualifier(text: P.Text, judged: Verdict)
    requires judged.kind == Met
    ensures
      var req := SkillDisqualifier();
      var staged := StageOf(text, [req], PL.EMPTY_PROFILE);
      && staged.Ok? && !staged.value.knockedOut && !staged.value.borderline
      && AdmittedJudgments(staged.value, map[req.reqId := judged]) == map[req.reqId := judged]
      && GateOf([req], MergeOf([req], staged.value.verdicts, map[req.reqId := judged])).Passes()
  {
    hide StageOf, MergeOf, GateOf;
    SkillStaged(text);
    DoubtMerged(SkillDisqualifier(), RuleVerdict(SkillDisqualifier(), P.Tri.Unknown, false), judged);
  }

  // ----- no model lifts a rule failure -----

  /** The kinds the judgment schema allows. */
  ghost predicate JudgedKinds(judged: Verdicts) {
    forall id :: id in judged ==> judged[id].kind != Disqualified
  }

  /** Whatever the light and deep judges answer, a hard rule that failed fails the gate and is named. */
  lemma NoModelLiftsRuleFailure(text: P.Text, spec: EvaluationSpec, profile: P.Profile,
                                light: Verdicts, deep: Verdicts, i: nat)
    requires UniqueIds(spec.requirements) && i < |spec.requirements|
    requires StageOf(text, spec.requirements, profile).Ok?
    requires JudgedKinds(light) && JudgedKinds(deep)
    requires RuleGates(spec.requirements[i])
    requires KindOf(StageOf(text, spec.requirements, profile).value.verdicts, spec.requirements[i].reqId) == NotMet
    ensures
      var merged := MergeOf(spec.requirements, StageOf(text, spec.requirements, profile).value.verdicts, light + deep);
      && spec.requirements[i].reqId in ScoreOf(spec, merged).gate.failed
      && !ScoreOf(spec, merged).gate.Passes()
  {
    hide StageOf, ScoreOf, MergeOf, Merged;
    var reqs, det := spec.requirements, StageOf(text, spec.requirements, profile).value.verdicts;
    FailureIsNamed(reqs, det, light + deep, i);
    FinalParts(spec, MergeOf(reqs, det, light + deep));
  }

  lemma FailureIsNamed(reqs: seq<Requirement>, det: Verdicts, judged: Verdicts, i: nat)
    requires UniqueIds(reqs) && i < |reqs| && JudgedKinds(judged)
    requires RuleGates(reqs[i]) && KindOf(det, reqs[i].reqId) == NotMet
    ensures FailsGate(reqs[i], MergeOf(reqs, det, judged))
    ensures reqs[i].reqId in GateOf(reqs, MergeOf(reqs, det, judged)).failed
    ensures !GateOf(reqs, MergeOf(reqs, det, judged)).Passes()
  {
    hide MergeOf, Merged, FailsGate, FailedIds;
    var id, merged := reqs[i].reqId, MergeOf(reqs, det, judged);
    MergeMeaning(reqs, det, judged);
    RuleFailureStands(reqs[i], det[id], VerdictOf(judged, id), merged);
    GateMeaning(reqs, merged);
    assert FailsNamed(reqs, merged, id);
  }

  /** Nobody the rules knocked out or flagged as a near miss ever passes the gate, before or after deep analysis. */
  lemma KnockedOutNeverPasses(text: P.Text, spec: EvaluationSpec, profile: P.Profile, judged: Verdicts)
    requires UniqueIds(spec.requirements) && StageOf(text, spec.requirements, profile).Ok? && JudgedKinds(judged)
    requires
      var stage := StageOf(text, spec.requirements, profile).value;
      stage.knockedOut || stage.borderline
    ensures
      var stage := StageOf(text, spec.requirements, profile).value;
      !GateOf(spec.requirements,
              MergeOf(spec.requirements, stage.verdicts, AdmittedJudgments(stage, judged))).Passes()
  {
    var reqs, stage := spec.requirements, StageOf(text, spec.requirements, profile).value;
    StageIsDecided(text, reqs, profile);
    hide StageOf, MergeOf, Covers, Explains;
    if stage.borderline {
      var i :| Near(reqs, stage.verdicts, i);
      FailureIsNamed(reqs, stage.verdicts, judged, i);
    } else {
      var i :| Out(reqs, stage.verdicts, i);
      OutWithoutJudgments(reqs, stage.verdicts, i);
    }
  }

  lemma OutWithoutJudgments(reqs: seq<Requirement>, det: Verdicts, i: nat)
    requires UniqueIds(reqs) && Out(reqs, det, i)
    ensures !GateOf(reqs, MergeOf(reqs, det, map[])).Passes()
  {
    hide MergeOf, FailedIds, UnverifiedIds;
    MergeMeaning(reqs, det, map[]);
    GateMeaning(reqs, MergeOf(reqs, det, map[]));
    assert FailsGate(reqs[i], MergeOf(reqs, det, map[]));
  }

  // ----- a flag nobody raises -----

  lemma {:induction false} MergedKinds(reqs: seq<Requirement>, det: Verdicts, judged: Verdicts)
    requires JudgedKinds(det) && JudgedKinds(judged)
    ensures JudgedKinds(MergeOf(reqs, det, judged))
  {
    if reqs != [] {
      MergedKinds(reqs[..|reqs| - 1], det, judged);
      var last := reqs[|reqs| - 1];
      MergedKind(last, VerdictOf(det, last.reqId), VerdictOf(judged, last.reqId));
      hide Merged;
    }
  }

  lemma MergedKind(req: Requirement, det: Option<Verdict>, judged: Option<Verdict>)
    requires det.Some? ==> det.value.kind != Disqualified
    requires judged.Some? ==> judged.value.kind != Disqualified
    ensures Merged(req, det, judged).Some? ==> Merged(req, det, judged).value.kind != Disqualified
  {
  }

  lemma ReviewNeedsDisqualified(spec: EvaluationSpec, verdicts: Verdicts)
    ensures DisqualifierTriggered in ScoreOf(spec, verdicts).reviewReasons <==> AnyDisqualified(verdicts)
  {
    hide GateOf, CategoriesOf, BaseOf, AdjustmentsOf, ConfidenceOf, FinalOf, BandOf, MissingIds, AnyDisqualified;
  }

  /**
   The review reason for a triggered disqualifier waits for the kind `disqualified`, which neither a rule nor
   a judge ever returns: no screening result carries it, not even when a disqualifier fails the gate.
   */
  lemma DisqualifierNeverFlagged(text: P.Text, spec: EvaluationSpec, profile: P.Profile, judged: Verdicts)
    requires StageOf(text, spec.requirements, profile).Ok? && JudgedKinds(judged)
    ensures
      var det := StageOf(text, spec.requirements, profile).value.verdicts;
      var merged := MergeOf(spec.requirements, det, judged);
      JudgedKinds(merged) && DisqualifierTriggered !in ScoreOf(spec, merged).reviewReasons
  {
    StageIsRuled(text, spec.requirements, profile);
    hide StageOf, ScoreOf, MergeOf;
    var det := StageOf(text, spec.requirements, profile).value.verdicts;
    MergedKinds(spec.requirements, det, judged);
    ReviewNeedsDisqualified(spec, MergeOf(spec.requirements, det, judged));
  }

  // ----- arbitrary judged scores -----

  /** Ladders are drawn within [0, 1] and weights are not negative. */
  ghost predicate SoundLadders(reqs: seq<Requirement>) {
    forall i :: 0 <= i < |reqs| ==>
      && reqs[i].weight >= 0.0
      && forall r :: r in A.Rungs(reqs[i]) ==> 0.0 <= r <= 1.0
  }

  ghost predicate SoundConfidence(v: Verdict) {
    v.confidence.Some? ==> 0.0 <= v.confidence.value <= 1.0
  }

  ghost predicate InUnit(v: Verdict) {
    && SoundConfidence(v)
    && (v.score.Some? ==> 0.0 <= v.score.value <= 1.0)
  }

  lemma AnchoredInUnit(req: Requirement, judged: Option<Verdict>)
    requires forall r :: r in A.Rungs(req) ==> 0.0 <= r <= 1.0
    requires judged.Some? ==> SoundConfidence(judged.value)
    ensures Anchored(req, judged).Some? ==> InUnit(Anchored(req, judged).value)
  {
    if judged.Some? && judged.value.score.Some? {
      A.SnapBounded(A.Rungs(req), judged.value.score.value);
    }
  }

  lemma MergedInUnit(req: Requirement, det: Option<Verdict>, judged: Option<Verdict>)
    requires forall r :: r in A.Rungs(req) ==> 0.0 <= r <= 1.0
    requires det.Some? ==> InUnit(det.value)
    requires judged.Some? ==> SoundConfidence(judged.value)
    ensures Merged(req, det, judged).Some? ==> InUnit(Merged(req, det, judged).value)
  {
    AnchoredInUnit(req, judged);
    hide Anchored;
  }

  /** Whatever numbers the judges return, the scores after anchoring lie in [0, 1]. */
  lemma AnchoredIsNormal(reqs: seq<Requirement>, det: Verdicts, judged: Verdicts)
    requires UniqueIds(reqs) && SoundLadders(reqs) && Ruled(det)
    requires forall id :: id in judged ==> SoundConfidence(judged[id])
    ensures Normal(reqs, MergeOf(reqs, det, judged))
  {
    hide Merged;
    MergeMeaning(reqs, det, judged);
    var merged := MergeOf(reqs, det, judged);
    forall id | id in merged
      ensures InUnit(merged[id])
    {
      var i :| 0 <= i < |reqs| && reqs[i].reqId == id;
      MergedInUnit(reqs[i], VerdictOf(det, id), VerdictOf(judged, id));
    }
  }

  /** Scores outside [0, 1], even absurd ones, still give a base score between 0 and 100. */
  lemma ArbitraryJudgmentsAreBounded(text: P.Text, spec: EvaluationSpec, profile: P.Profile, judged: Verdicts)
    requires UniqueIds(spec.requirements) && SoundLadders(spec.requirements)
    requires StageOf(text, spec.requirements, profile).Ok?
    requires forall id :: id in judged ==> SoundConfidence(judged[id])
    ensures
      var merged := MergeOf(spec.requirements, StageOf(text, spec.requirements, profile).value.verdicts, judged);
      && 0.0 <= BaseOf(spec, merged) <= 100.0
      && 0.0 <= ScoreOf(spec, merged).baseScore <= 100.0
      && 0.0 <= ScoreOf(spec, merged).finalScore <= 100.0
  {
    StageIsRuled(text, spec.requirements, profile);
    hide *;
    var det := StageOf(text, spec.requirements, profile).value.verdicts;
    AnchoredIsNormal(spec.requirements, det, judged);
    ScoreBounded(spec, MergeOf(spec.requirements, det, judged));
  }

  // ----- merging again -----

  /** Equal except for the score, which may differ only where the requirement is not scored. */
  ghost predicate AlikeFor(kind: RequirementType, a: Option<Verdict>, b: Option<Verdict>) {
    && (a.Some? <==> b.Some?)
    && (a.Some? ==>
          && a.value.kind == b.value.kind && a.value.confidence == b.value.confidence
          && a.value.infoStatus == b.value.infoStatus && a.value.source == b.value.source
          && a.value.borderline == b.value.borderline
          && (kind == Scored ==> a.value.score == b.value.score))
  }

  lemma AnchoredTwice(req: Requirement, v: Option<Verdict>)
    ensures Anchored(req, Anchored(req, v)) == Anchored(req, v)
  {
    if v.Some? && v.value.score.Some? {
      A.SnapIdempotent(A.Rungs(req), v.value.score.value);
    }
  }

  /** A judgment read back from the merge merges to the same again: snapping and the worst half absorb it. */
  lemma MergedAgain(req: Requirement, det: Option<Verdict>, judged: Option<Verdict>)
    requires det.Some? ==> det.value.source == Some(ByRule)
    requires judged.Some? ==> judged.value.source == Some(ByLight)
    ensures
      var once := Merged(req, det, judged);
      var kept := if once.Some? && once.value.source == Some(ByLight) then once else None;
      AlikeFor(req.kind, once, Merged(req, det, kept))
  {
    hide A.SnapOf;
    AnchoredTwice(req, judged);
  }

  lemma RemergeAlike(reqs: seq<Requirement>, det: Verdicts, light: Verdicts)
    requires UniqueIds(reqs) && Ruled(det)
    requires forall id :: id in light ==> light[id].source == Some(ByLight)
    ensures
      var merged := MergeOf(reqs, det, light);
      Alike(reqs, merged, MergeOf(reqs, det, StoredLight(merged)))
  {
    hide Merged, MergeOf;
    var once := MergeOf(reqs, det, light);
    var again := MergeOf(reqs, det, StoredLight(once));
    MergeMeaning(reqs, det, light);
    MergeMeaning(reqs, det, StoredLight(once));
    forall i | 0 <= i < |reqs|
      ensures AlikeFor(reqs[i].kind, VerdictOf(once, reqs[i].reqId), VerdictOf(again, reqs[i].reqId))
    {
      MergedAgain(reqs[i], VerdictOf(det, reqs[i].reqId), VerdictOf(light, reqs[i].reqId));
    }
    AlikeFromEach(reqs, once, again);
  }

  lemma AlikeFromEach(reqs: seq<Requirement>, once: Verdicts, again: Verdicts)
    requires forall i :: 0 <= i < |reqs| ==>
               AlikeFor(reqs[i].kind, VerdictOf(once, reqs[i].reqId), VerdictOf(again, reqs[i].reqId))
    requires forall id :: id in once || id in again ==> exists i :: 0 <= i < |reqs| && reqs[i].reqId == id
    ensures Alike(reqs, once, again)
  {
    forall id
      ensures id in once <==> id in again
      ensures id in once && id in again ==> AlikeFor(Info, Some(once[id]), Some(again[id]))
    {
      if id in once || id in again {
        var i :| 0 <= i < |reqs| && reqs[i].reqId == id;
      }
    }
  }

  /** Deep analysis that answers nothing changes nothing: the whole score comes out as it was. */
  lemma RemergeIsStable(text: P.Text, spec: EvaluationSpec, profile: P.Profile, light: Verdicts)
    requires UniqueIds(spec.requirements) && StageOf(text, spec.requirements, profile).Ok?
    requires Judged(light, ByLight)
    ensures
      var det := StageOf(text, spec.requirements, profile).value.verdicts;
      var stored := MergeOf(spec.requirements, det, light + map[]);
      ScoreOf(spec, MergeOf(spec.requirements, det, StoredLight(stored) + map[])) == ScoreOf(spec, stored)
  {
    StageIsRuled(text, spec.requirements, profile);
    var det := StageOf(text, spec.requirements, profile).value.verdicts;
    hide StageOf, ScoreOf, MergeOf;
    var stored := MergeOf(spec.requirements, det, light);
    hide Alike, Ruled, StoredLight;
    RemergeAlike(spec.requirements, det, light);
    assert light + map[] == light && StoredLight(stored) + map[] == StoredLight(stored);
    ScoreAlike(spec, stored, MergeOf(spec.requirements, det, StoredLight(stored)));
  }
}
