/** Stage 3 (screening/deterministic.py): rule verdicts over the stored profile and the knockout decision. */
module Deterministic {
  import opened Wrappers
  import opened Spec
  import P = Predicates

  datatype Stage = Stage(verdicts: Verdicts, knockedOut: bool, borderline: bool, reasons: seq<string>)

  /**
   What Stage 4 may add for a candidate: nothing when the rules knocked it out cleanly, otherwise
   whatever the judges said.
   */
  function AdmittedJudgments(stage: Stage, judged: Verdicts): Verdicts {
    if stage.knockedOut && !stage.borderline then map[] else judged
  }

  const NOTHING_CHECKED := Stage(map[], false, false, [])

  function KindFrom(tri: P.Tri, policy: MissingPolicy): VerdictKind {
    match tri
    case Pass => Met
    case Fail => NotMet
    case Unknown => if policy == AsFailure then NotMet else VerdictKind.Unknown
  }

  /** What a rule says: certain about what it checked, silent about what it could not read. */
  function RuleVerdict(req: Requirement, tri: P.Tri, borderline: bool): Verdict {
    var kind := KindFrom(tri, req.missingPolicy);
    Verdict(
      req.reqId, kind,
      (match kind case Met => Some(1.0) case NotMet => Some(0.0) case _ => None),
      Some(1.0),
      Some(if kind == VerdictKind.Unknown then Missing else Explicit),
      Some(ByRule),
      borderline)
  }

  predicate RuleGates(req: Requirement) {
    req.kind == Hard && req.evaluator != Semantic
  }

  /** A clean failure of a hard rule, or a disqualifier that applies. */
  predicate KnocksOut(req: Requirement, v: Verdict) {
    || (RuleGates(req) && v.kind == NotMet && !v.borderline)
    || (req.kind == Disqualifier && v.kind == Met)
  }

  predicate NearMiss(req: Requirement, v: Verdict) {
    RuleGates(req) && v.kind == NotMet && v.borderline
  }

  function Noted(stage: Stage, req: Requirement, v: Verdict): Stage {
    Stage(stage.verdicts[req.reqId := v],
          stage.knockedOut || KnocksOut(req, v),
          stage.borderline || NearMiss(req, v),
          if KnocksOut(req, v) then stage.reasons + [req.reqId] else stage.reasons)
  }

  /** One requirement's verdict, or none when it has no rule. */
  function Checked(text: P.Text, req: Requirement, profile: P.Profile): Result<Option<Verdict>, P.PredicateError> {
    match req.deterministic
    case None => Ok(None)
    case Some(check) =>
      match P.EvaluateWithBorderline(text, check.rule, profile, check.borderlineTolerance)
      case Err(e) => Err(e)
      case Ok((tri, borderline)) => Ok(Some(RuleVerdict(req, tri, borderline)))
  }

  type Running = Result<Stage, P.PredicateError>

  /** The first requirement whose rule raises ends the stage. */
  function Continued(before: Running, req: Requirement, checked: Result<Option<Verdict>, P.PredicateError>): Running {
    if before.Err? then before
    else if checked.Err? then Err(checked.error)
    else if checked.value == None then before
    else Ok(Noted(before.value, req, checked.value.value))
  }

  function StageOf(text: P.Text, reqs: seq<Requirement>, profile: P.Profile): Running {
    if reqs == [] then Ok(NOTHING_CHECKED)
    else Continued(StageOf(text, reqs[..|reqs| - 1], profile), reqs[|reqs| - 1],
                   Checked(text, reqs[|reqs| - 1], profile))
  }

  lemma StageSnoc(text: P.Text, reqs: seq<Requirement>, profile: P.Profile, i: nat)
    requires i < |reqs|
    ensures StageOf(text, reqs[..i + 1], profile)
         == Continued(StageOf(text, reqs[..i], profile), reqs[i], Checked(text, reqs[i], profile))
  {
    hide Continued, Checked;
    assert reqs[..i + 1][..i] == reqs[..i];
  }

  lemma {:induction false} FirstErrorDecides(text: P.Text, reqs: seq<Requirement>, profile: P.Profile, i: nat)
    requires i <= |reqs| && StageOf(text, reqs[..i], profile).Err?
    ensures StageOf(text, reqs, profile) == StageOf(text, reqs[..i], profile)
  {
    hide Checked;
    if i < |reqs| {
      assert reqs[..|reqs| - 1][..i] == reqs[..i];
      FirstErrorDecides(text, reqs[..|reqs| - 1], profile, i);
    } else {
      assert reqs[..i] == reqs;
    }
  }

  method RunDeterministicStage(text: P.Text, spec: EvaluationSpec, profile: P.Profile)
    returns (result: Running)
    ensures result == StageOf(text, spec.requirements, profile)
  {
    var reqs := spec.requirements;
    var verdicts: Verdicts, knockedOut, borderline, reasons: seq<string> := map[], false, false, [];
    for i := 0 to |reqs|
      invariant StageOf(text, reqs[..i], profile) == Ok(Stage(verdicts, knockedOut, borderline, reasons))
    {
      hide P.EvaluateWithBorderline, StageOf;
      var req := reqs[i];
      StageSnoc(text, reqs, profile, i);
      if req.deterministic == None { continue; }
      var check := req.deterministic.value;
      var outcome := P.EvaluateWithBorderline(text, check.rule, profile, check.borderlineTolerance);
      if outcome.Err? {
        FirstErrorDecides(text, reqs, profile, i + 1);
        return Err(outcome.error);
      }
      var near := outcome.value.1;
      var v := RuleVerdict(req, outcome.value.0, near);
      verdicts := verdicts[req.reqId := v];
      if RuleGates(req) {
        if v.kind == NotMet {
          if near {
            borderline := true;
          } else {
            knockedOut, reasons := true, reasons + [req.reqId];
          }
        }
      } else if req.kind == Disqualifier && v.kind == Met {
        knockedOut, reasons := true, reasons + [req.reqId];
      }
    }
    assert reqs[..|reqs|] == reqs;
    result := Ok(Stage(verdicts, knockedOut, borderline, reasons));
  }

  /** Rule verdicts are certain: met scores 1, not met 0, unknown nothing, and there is no other kind. */
  ghost predicate Ruled(verdicts: Verdicts) {
    forall id :: id in verdicts ==>
      && verdicts[id].kind != Disqualified && verdicts[id].kind != PartiallyMet
      && verdicts[id].source == Some(ByRule) && verdicts[id].confidence == Some(1.0)
      && verdicts[id].score == (if verdicts[id].kind == Met then Some(1.0)
                                else if verdicts[id].kind == NotMet then Some(0.0) else None)
  }

  lemma {:induction false} StageIsRuled(text: P.Text, reqs: seq<Requirement>, profile: P.Profile)
    requires StageOf(text, reqs, profile).Ok?
    ensures Ruled(StageOf(text, reqs, profile).value.verdicts)
  {
    hide P.EvaluateWithBorderline;
    if reqs != [] {
      StageIsRuled(text, reqs[..|reqs| - 1], profile);
    }
  }

  // ----- reading the decision back from the verdicts -----

  ghost predicate Out(reqs: seq<Requirement>, verdicts: Verdicts, i: int) {
    0 <= i < |reqs| && reqs[i].reqId in verdicts && KnocksOut(reqs[i], verdicts[reqs[i].reqId])
  }

  ghost predicate Near(reqs: seq<Requirement>, verdicts: Verdicts, i: int) {
    0 <= i < |reqs| && reqs[i].reqId in verdicts && NearMiss(reqs[i], verdicts[reqs[i].reqId])
  }

  ghost predicate Has(reqs: seq<Requirement>, id: string) {
    exists i :: 0 <= i < |reqs| && reqs[i].reqId == id
  }

  /** Every rule has a verdict, and only rules do. */
  ghost predicate Covers(reqs: seq<Requirement>, verdicts: Verdicts) {
    && (forall id :: id in verdicts ==> Has(reqs, id))
    && (forall i :: 0 <= i < |reqs| ==> (reqs[i].reqId in verdicts <==> reqs[i].deterministic.Some?))
  }

  ghost predicate Explains(reqs: seq<Requirement>, stage: Stage) {
    && (forall id :: id in stage.reasons ==> id in stage.verdicts)
    && (forall i :: 0 <= i < |reqs| ==> (reqs[i].reqId in stage.reasons <==> Out(reqs, stage.verdicts, i)))
  }

  /** The decision and its reasons are what the verdicts say. */
  ghost predicate Decided(reqs: seq<Requirement>, stage: Stage) {
    && Covers(reqs, stage.verdicts) && Explains(reqs, stage)
    && (stage.knockedOut <==> exists i :: Out(reqs, stage.verdicts, i))
    && (stage.borderline <==> exists i :: Near(reqs, stage.verdicts, i))
  }

  /** An earlier requirement's verdict is not touched by a later one with another id. */
  lemma EarlierKept(reqs: seq<Requirement>, before: Verdicts, after: Verdicts, n: nat)
    requires UniqueIds(reqs) && n < |reqs|
    requires forall id :: id != reqs[n].reqId ==>
               (id in after <==> id in before) && (id in before && id in after ==> after[id] == before[id])
    ensures forall i :: 0 <= i < n ==> (Out(reqs[..n], before, i) <==> Out(reqs, after, i))
    ensures forall i :: 0 <= i < n ==> (Near(reqs[..n], before, i) <==> Near(reqs, after, i))
  {
    hide KnocksOut, NearMiss;
    forall i | 0 <= i < n
      ensures Out(reqs[..n], before, i) <==> Out(reqs, after, i)
      ensures Near(reqs[..n], before, i) <==> Near(reqs, after, i)
    {
      assert reqs[i].reqId != reqs[n].reqId;
    }
  }

  lemma AnyExtends(reqs: seq<Requirement>, before: Verdicts, after: Verdicts, n: nat)
    requires n + 1 == |reqs|
    requires forall i :: 0 <= i < n ==> (Out(reqs[..n], before, i) <==> Out(reqs, after, i))
    requires forall i :: 0 <= i < n ==> (Near(reqs[..n], before, i) <==> Near(reqs, after, i))
    ensures (exists i :: Out(reqs, after, i)) <==> (exists i :: Out(reqs[..n], before, i)) || Out(reqs, after, n)
    ensures (exists i :: Near(reqs, after, i)) <==> (exists i :: Near(reqs[..n], before, i)) || Near(reqs, after, n)
  {
    hide KnocksOut, NearMiss;
    assert forall i :: Out(reqs, after, i) ==> 0 <= i < n || i == n;
    assert forall i :: Near(reqs, after, i) ==> 0 <= i < n || i == n;
    assert forall i :: Out(reqs[..n], before, i) ==> 0 <= i < n;
    assert forall i :: Near(reqs[..n], before, i) ==> 0 <= i < n;
  }

  lemma NewIsUnseen(reqs: seq<Requirement>, n: nat, verdicts: Verdicts)
    requires UniqueIds(reqs) && n + 1 == |reqs| && Covers(reqs[..n], verdicts)
    ensures reqs[n].reqId !in verdicts
  {
    var id := reqs[n].reqId;
    forall i | 0 <= i < n
      ensures reqs[..n][i].reqId != id
    {
      assert reqs[i].reqId != id;
    }
    assert !Has(reqs[..n], id);
  }

  /** One requirement's outcome added to the stage. */
  ghost predicate Next(reqs: seq<Requirement>, n: nat, before: Stage, v: Option<Verdict>, after: Stage) {
    && UniqueIds(reqs) && n + 1 == |reqs| && Covers(reqs[..n], before.verdicts)
    && (v.Some? <==> reqs[n].deterministic.Some?)
    && after == if v == None then before else Noted(before, reqs[n], v.value)
  }

  lemma NextCovers(reqs: seq<Requirement>, n: nat, before: Stage, v: Option<Verdict>, after: Stage)
    requires Next(reqs, n, before, v, after)
    ensures Covers(reqs, after.verdicts)
  {
    hide KnocksOut, NearMiss;
    var id := reqs[n].reqId;
    NewIsUnseen(reqs, n, before.verdicts);
    forall other | other in after.verdicts
      ensures Has(reqs, other)
    {
      if other != id {
        assert Has(reqs[..n], other);
        var i :| 0 <= i < n && reqs[..n][i].reqId == other;
        assert reqs[i].reqId == other;
      }
    }
    forall i | 0 <= i < |reqs|
      ensures reqs[i].reqId in after.verdicts <==> reqs[i].deterministic.Some?
    {
      if i < n {
        assert reqs[..n][i] == reqs[i] && reqs[i].reqId != id;
      }
    }
  }

  lemma NextExplains(reqs: seq<Requirement>, n: nat, before: Stage, v: Option<Verdict>, after: Stage)
    requires Next(reqs, n, before, v, after) && Explains(reqs[..n], before)
    ensures Explains(reqs, after)
  {
    hide KnocksOut, NearMiss;
    var id := reqs[n].reqId;
    NewIsUnseen(reqs, n, before.verdicts);
    EarlierKept(reqs, before.verdicts, after.verdicts, n);
    forall i | 0 <= i < |reqs|
      ensures reqs[i].reqId in after.reasons <==> Out(reqs, after.verdicts, i)
    {
      if i < n {
        assert reqs[..n][i] == reqs[i] && reqs[i].reqId != id;
      }
    }
  }

  lemma NextDecided(reqs: seq<Requirement>, n: nat, before: Stage, v: Option<Verdict>, after: Stage)
    requires Next(reqs, n, before, v, after) && Decided(reqs[..n], before)
    ensures Decided(reqs, after)
  {
    hide KnocksOut, NearMiss, Covers, Explains, UniqueIds;
    NextCovers(reqs, n, before, v, after);
    NextExplains(reqs, n, before, v, after);
    NewIsUnseen(reqs, n, before.verdicts);
    EarlierKept(reqs, before.verdicts, after.verdicts, n);
    AnyExtends(reqs, before.verdicts, after.verdicts, n);
  }

  lemma {:induction false} StageIsDecided(text: P.Text, reqs: seq<Requirement>, profile: P.Profile)
    requires UniqueIds(reqs) && StageOf(text, reqs, profile).Ok?
    ensures Decided(reqs, StageOf(text, reqs, profile).value)
  {
    if reqs != [] {
      var n := |reqs| - 1;
      var before, checked := StageOf(text, reqs[..n], profile), Checked(text, reqs[n], profile);
      StageSnoc(text, reqs, profile, n);
      assert reqs[..n + 1] == reqs;
      hide StageOf, P.EvaluateWithBorderline;
      StageIsDecided(text, reqs[..n], profile);
      hide Covers, Explains, Noted;
      NextDecided(reqs, n, before.value, checked.value, StageOf(text, reqs, profile).value);
    }
  }
}
