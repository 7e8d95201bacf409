/** The compiled job requirements and the verdicts they receive (domain/spec.py, domain/scoring.py). */
module Spec {
  import opened Wrappers
  import P = Predicates

  datatype RequirementType = Hard | Scored | Bonus | Penalty | Disqualifier | Info
  datatype Evaluator = Deterministic | Semantic | Hybrid
  datatype MissingPolicy = AsUnknown | AsFailure | Ignored

  datatype DeterministicCheck = DeterministicCheck(
    rule: P.Predicate, borderlineTolerance: Option<real>, penaltyPoints: Option<real>)

  /** `anchors` are the scores of the requirement's own ladder; empty means the default ladder. */
  datatype SemanticCheck = SemanticCheck(anchors: seq<real>)

  datatype Requirement = Requirement(
    reqId: string, category: string, kind: RequirementType, evaluator: Evaluator,
    deterministic: Option<DeterministicCheck>, semantic: Option<SemanticCheck>,
    missingPolicy: MissingPolicy, weight: real, bonusPoints: Option<real>)

  datatype EvaluationSpec = EvaluationSpec(
    weights: map<string, real>, bonusCap: real, requirements: seq<Requirement>)

  datatype VerdictKind = Met | PartiallyMet | NotMet | Unknown | Disqualified
  datatype InfoStatus = Explicit | Inferred | Ambiguous | Missing
  datatype Source = ByRule | ByLight | ByDeep | ByHuman

  datatype Verdict = Verdict(
    reqId: string, kind: VerdictKind, score: Option<real>, confidence: Option<real>,
    infoStatus: Option<InfoStatus>, source: Option<Source>, borderline: bool)

  type Verdicts = map<string, Verdict>

  ghost predicate UniqueIds(reqs: seq<Requirement>) {
    forall i, j :: 0 <= i < j < |reqs| ==> reqs[i].reqId != reqs[j].reqId
  }

  predicate Asked(reqs: seq<Requirement>, id: string) {
    exists i :: 0 <= i < |reqs| && reqs[i].reqId == id
  }

  /** What the judgment schema lets a model say: four kinds, never `disqualified`. */
  ghost predicate Judged(verdicts: Verdicts, source: Source) {
    forall id :: id in verdicts ==> verdicts[id].kind != Disqualified && verdicts[id].source == Some(source)
  }
}
