/** Merging rule verdicts with model judgments (screening/assemble.py). */
module Assemble {
  import opened Wrappers
  import opened Spec
  import opened Scoring
  import A = Anchors

  function Severity(kind: VerdictKind): nat {
    match kind
    case Met => 0
    case PartiallyMet => 1
    case Unknown => 2
    case NotMet => 3
    case Disqualified => 4
  }

  function VerdictOf(verdicts: Verdicts, id: string): Option<Verdict> {
    if id in verdicts then Some(verdicts[id]) else None
  }

  /** A judged score is put on the requirement's ladder; a judgment without a score is left alone. */
  function Anchored(req: Requirement, v: Option<Verdict>): Option<Verdict> {
    if v == None || v.value.score == None then v
    else Some(v.value.(score := A.SnapOf(req, v.value.score)))
  }

  predicate Gates(kind: RequirementType) {
    kind == Hard || kind == Disqualifier || kind == Penalty
  }

  /** On a gate the more severe half decides, in the semantic half's envelope; elsewhere the judgment wins. */
  function Combined(kind: RequirementType, det: Option<Verdict>, sem: Option<Verdict>): Option<Verdict> {
    if det == None then sem
    else if sem == None then det
    else if Gates(kind) then
      var worst := if Severity(det.value.kind) >= Severity(sem.value.kind) then det.value else sem.value;
      Some(sem.value.(kind := worst.kind, score := EffectiveScore(worst),
                      borderline := det.value.borderline || sem.value.borderline))
    else if sem.value.kind != Unknown then sem
    else det
  }

  /** What one requirement ends up with. */
  function Merged(req: Requirement, det: Option<Verdict>, judged: Option<Verdict>): Option<Verdict> {
    var sem := Anchored(req, judged);
    match req.evaluator
    case Deterministic => det
    case Semantic => if sem.Some? then sem else det
    case Hybrid => Combined(req.kind, det, sem)
  }

  function MergeOf(reqs: seq<Requirement>, det: Verdicts, judged: Verdicts): Verdicts {
    if reqs == [] then map[]
    else
      var last := reqs[|reqs| - 1];
      var before := MergeOf(reqs[..|reqs| - 1], det, judged);
      match Merged(last, VerdictOf(det, last.reqId), VerdictOf(judged, last.reqId))
      case None => before
      case Some(v) => before[last.reqId := v]
  }

  /** Deep judgments override light ones requirement by requirement. */
  method MergeVerdicts(spec: EvaluationSpec, det: Verdicts, light: Verdicts, deep: Verdicts)
    returns (merged: Verdicts)
    ensures merged == MergeOf(spec.requirements, det, light + deep)
  {
    var reqs, semantic := spec.requirements, light + deep;
    merged := map[];
    for i := 0 to |reqs|
      invariant merged == MergeOf(reqs[..i], det, semantic)
    {
      hide EffectiveScore;
      var req := reqs[i];
      assert reqs[..i + 1][..i] == reqs[..i];
      var ruled := VerdictOf(det, req.reqId);
      var judged := Anchored(req, VerdictOf(semantic, req.reqId));
      match req.evaluator {
        case Deterministic =>
          if ruled.Some? { merged := merged[req.reqId := ruled.value]; }
        case Semantic =>
          if judged.Some? {
            merged := merged[req.reqId := judged.value];
          } else if ruled.Some? {
            merged := merged[req.reqId := ruled.value];
          }
        case Hybrid =>
          var combined := Combined(req.kind, ruled, judged);
          if combined.Some? { merged := merged[req.reqId := combined.value]; }
      }
    }
    assert reqs[..|reqs|] == reqs;
  }

  /** The light judgments that can be read back from a stored result. */
  function StoredLight(merged: Verdicts): Verdicts {
    map id | id in merged && merged[id].source == Some(ByLight) :: merged[id]
  }

  /** With unique ids every requirement gets its own outcome, and nothing else is in the merge. */
  lemma {:induction false} MergeMeaning(reqs: seq<Requirement>, det: Verdicts, judged: Verdicts)
    requires UniqueIds(reqs)
    ensures forall i :: 0 <= i < |reqs| ==>
              VerdictOf(MergeOf(reqs, det, judged), reqs[i].reqId)
              == Merged(reqs[i], VerdictOf(det, reqs[i].reqId), VerdictOf(judged, reqs[i].reqId))
    ensures forall id :: id in MergeOf(reqs, det, judged) ==> exists i :: 0 <= i < |reqs| && reqs[i].reqId == id
  {
    hide Merged;
    if reqs != [] {
      var init, last := reqs[..|reqs| - 1], reqs[|reqs| - 1];
      MergeMeaning(init, det, judged);
      forall i | 0 <= i < |init|
        ensures init[i] == reqs[i] && reqs[i].reqId != last.reqId
      {
      }
      forall id | id in MergeOf(init, det, judged)
        ensures exists i :: 0 <= i < |reqs| && reqs[i].reqId == id
      {
        var i :| 0 <= i < |init| && init[i].reqId == id;
        assert reqs[i].reqId == id;
      }
    }
  }
}
