/**
 The evaluation rows of one run: how the stages write them (workers/tasks/screen.py), how a person
 corrects them (services/overrides.py), and how both ends rank them.
 */
module Evaluations {
  import opened Applications
  import opened Wrappers
  import opened Sorting
  import opened Spec
  import opened Scoring
  import opened Assemble
  import opened Ranking
  import D = Deterministic

  // ----- what each writer leaves -----

  function ScorerFlags(s: ScoreResult): set<Flag> {
    set r | r in s.reviewReasons :: FromScorer(r)
  }

  function When(condition: bool, flag: Flag): set<Flag> {
    if condition then {flag} else {}
  }

  /** The gate of the light stage: a failing gate is a near miss only if the rules saw one. */
  function LightResult(stage: D.Stage, gatePasses: bool): HardResult {
    if !gatePasses then (if stage.borderline then Borderline else Failed)
    else if stage.knockedOut && !stage.borderline then Failed
    else if stage.borderline then Borderline
    else Passed
  }

  ghost function LightVerdicts(spec: EvaluationSpec, stage: D.Stage, output: Option<Verdicts>): Verdicts {
    MergeOf(spec.requirements, stage.verdicts,
            D.AdmittedJudgments(stage, if output == None then map[] else output.value))
  }

  ghost function LightRow(spec: EvaluationSpec, stage: D.Stage, output: Option<Verdicts>, failed: bool,
                          injected: bool): Row {
    var merged := LightVerdicts(spec, stage, output);
    var s := ScoreOf(spec, merged);
    Row(merged, LightResult(stage, s.gate.Passes()), Some(s.finalScore), s.confidence, None, None,
        ScorerFlags(s) + When(failed, LightScreenFailed) + When(injected, InjectionDetected), false)
  }

  ghost function DeepRow(spec: EvaluationSpec, row: Row, stage: D.Stage, deep: Verdicts, split: bool,
                         injected: bool): Row {
    var merged := MergeOf(spec.requirements, stage.verdicts, StoredLight(row.verdicts) + deep);
    var s := ScoreOf(spec, merged);
    row.(verdicts := merged, hardResult := if s.gate.Passes() then Passed else Failed,
         score := Some(s.finalScore), confidence := s.confidence,
         flags := ScorerFlags(s) + When(split, VoteDisagreement) + When(injected, InjectionDetected), deep := true)
  }

  /** A permanent failure keeps the light result, flagged. */
  function DeepFailedRow(row: Row): Row {
    row.(flags := row.flags + {DeepAnalysisFailed}, deep := true)
  }

  /** A row of an earlier run of the same profile, specification and pipeline is taken over unranked. */
  function CopiedRow(prior: Row): Row {
    prior.(band := None, rank := None)
  }

  /** The final pass over one row, before ranking. */
  ghost function RescoredRow(spec: EvaluationSpec, row: Row): Row {
    var s := ScoreOf(spec, row.verdicts);
    row.(score := Some(s.finalScore), confidence := s.confidence, band := Some(Banded(s.band)),
         hardResult := if s.gate.Passes() then row.hardResult else Failed,
         flags := row.flags + ScorerFlags(s))
  }

  ghost function Rescored(spec: EvaluationSpec, rows: Rows): Rows {
    map id | id in rows :: RescoredRow(spec, rows[id])
  }

  ghost predicate PassesGate(spec: EvaluationSpec, row: Row) {
    GateOf(spec.requirements, row.verdicts).Passes()
  }

  ghost function GatePassers(spec: EvaluationSpec, rows: Rows): set<AppId> {
    set id | id in rows && PassesGate(spec, rows[id])
  }

  ghost function HardPassers(rows: Rows): set<AppId> {
    set id | id in rows && rows[id].hardResult == Passed
  }

  /** score_run: rescore every row, then rank by the gate just computed. */
  ghost function ScoredRun(spec: EvaluationSpec, rows: Rows): Rows {
    RankedOver(Rescored(spec, rows), GatePassers(spec, rows))
  }

  /** rerank_run: rank by the stored hard result. */
  ghost function Reranked(rows: Rows): Rows {
    RankedOver(rows, HardPassers(rows))
  }

  // ----- corrections -----

  datatype OverrideError = NotCorrectable(kind: VerdictKind) | NoSuchRequirement(reqId: string)

  function Refused(spec: EvaluationSpec, reqId: string, kind: VerdictKind): Option<OverrideError> {
    if kind == Disqualified then Some(NotCorrectable(kind))
    else if !Asked(spec.requirements, reqId) then Some(NoSuchRequirement(reqId))
    else None
  }

  /** A person is certain, and what was known about the requirement's evidence stays on file. */
  function HumanVerdict(verdicts: Verdicts, reqId: string, kind: VerdictKind): Verdict {
    Verdict(reqId, kind, None, Some(1.0),
            if reqId in verdicts then verdicts[reqId].infoStatus else None,
            Some(ByHuman), false)
  }

  ghost function CorrectedRow(spec: EvaluationSpec, row: Row, reqId: string, kind: VerdictKind): Row {
    var verdicts := row.verdicts[reqId := HumanVerdict(row.verdicts, reqId, kind)];
    var s := ScoreOf(spec, verdicts);
    row.(verdicts := verdicts, score := Some(s.finalScore), confidence := s.confidence,
         band := Some(Banded(s.band)), hardResult := if s.gate.Passes() then Passed else Failed,
         flags := ScorerFlags(s))
  }

  ghost function Corrected(spec: EvaluationSpec, rows: Rows, app: AppId, reqId: string, kind: VerdictKind): Rows
    requires app in rows
  {
    if Refused(spec, reqId, kind).Some? then rows
    else Reranked(rows[app := CorrectedRow(spec, rows[app], reqId, kind)])
  }

  datatype Override = Override(app: AppId, reqId: string, before: Option<VerdictKind>, after: VerdictKind)

  // ----- the table -----

  ghost function Elements(ids: seq<AppId>): set<AppId> {
    set id | id in ids
  }

  /** The rows once the first `n` of an order have been numbered. */
  ghost predicate Numbered(rows: Rows, out: Rows, order: seq<AppId>, n: nat)
    requires n <= |order|
  {
    && (forall id :: id in out <==> id in rows)
    && (forall k :: 0 <= k < n ==> order[k] in rows && out[order[k]] == rows[order[k]].(rank := Some(k + 1)))
    && (forall id :: id in rows && id !in order[..n] ==> out[id] == rows[id])
  }

  lemma NumberNext(rows: Rows, out: Rows, order: seq<AppId>, n: nat)
    requires n < |order| && Distinct(order) && order[n] in rows && Numbered(rows, out, order, n)
    ensures order[n] in out
    ensures Numbered(rows, out[order[n] := out[order[n]].(rank := Some(n + 1))], order, n + 1)
  {
    var id := order[n];
    assert id !in order[..n];
    assert order[..n + 1] == order[..n] + [id];
  }

  lemma NumberedAll(rows: Rows, out: Rows, order: seq<AppId>, passed: seq<AppId>)
    requires Numbered(rows, out, order, |order|)
    requires Distinct(order) && SortedBy(ByKey(rows), order) && forall id :: id in order <==> id in passed
    ensures forall id :: id in passed ==> id in rows && id in out && out[id] == RankedRow(rows, Elements(passed), id)
    ensures forall id :: id in rows && id !in passed ==> id in out && out[id] == rows[id]
  {
    hide Ranking.ByKey, Ranking.Ahead;
    assert order[..|order|] == order;
    forall id | id in passed
      ensures id in rows && id in out && out[id] == RankedRow(rows, Elements(passed), id)
    {
      var k :| 0 <= k < |order| && order[k] == id;
      SortedPosition(rows, order, Elements(passed), k);
    }
  }

  /** Sort the passing ids by key and number them. */
  method Number(rows: Rows, passed: seq<AppId>) returns (out: Rows)
    requires Distinct(passed) && forall id :: id in passed ==> id in rows
    ensures forall id :: id in out <==> id in rows
    ensures forall id :: id in rows ==>
              out[id] == if id in passed then RankedRow(rows, Elements(passed), id) else rows[id]
  {
    var order := Sort(ByKey(rows), passed);
    SortedDistinct(rows, passed);
    out := rows;
    for position := 0 to |order|
      invariant Numbered(rows, out, order, position)
    {
      hide Numbered, Ranking.ByKey, Sort, SortedBy;
      var id := order[position];
      assert id in order;
      NumberNext(rows, out, order, position);
      out := out[id := out[id].(rank := Some(position + 1))];
    }
    hide Ranking.ByKey, Sort, SortedBy, RankedRow;
    NumberedAll(rows, out, order, passed);
  }

  function Struck(row: Row): Row {
    row.(rank := None, band := Some(Rejected))
  }

  /** Strike everyone else off the ranking. */
  method StrikeOff(rows: Rows, ids: seq<AppId>, passed: seq<AppId>) returns (out: Rows)
    requires forall id :: id in ids <==> id in rows
    ensures forall id :: id in out <==> id in rows
    ensures forall id :: id in rows ==> out[id] == if id in passed then rows[id] else Struck(rows[id])
  {
    out := rows;
    for i := 0 to |ids|
      invariant forall id :: id in out <==> id in rows
      invariant forall id :: id in rows ==>
                  out[id] == if id in ids[..i] && id !in passed then Struck(rows[id]) else rows[id]
    {
      var id := ids[i];
      assert id in ids;
      if id !in passed {
        out := out[id := out[id].(rank := None, band := Some(Rejected))];
      }
    }
    assert ids[..|ids|] == ids;
  }

  lemma GateOfScore(spec: EvaluationSpec, row: Row)
    ensures ScoreOf(spec, row.verdicts).gate.Passes() <==> PassesGate(spec, row)
  {
  }

  lemma IsRescored(spec: EvaluationSpec, before: Rows, rows: Rows, passed: seq<AppId>)
    requires forall id :: id in rows <==> id in before
    requires forall id :: id in before ==> rows[id] == RescoredRow(spec, before[id])
    requires forall id :: id in passed <==> id in before && PassesGate(spec, before[id])
    ensures rows == Rescored(spec, before) && Elements(passed) == GatePassers(spec, before)
  {
    hide ScoreOf, ScorerFlags, RescoredRow, PassesGate;
    forall id
      ensures id in Elements(passed) <==> id in GatePassers(spec, before)
    {
    }
    assert rows.Keys == Rescored(spec, before).Keys;
  }

  lemma IsHardPassers(rows: Rows, passed: seq<AppId>)
    requires forall id :: id in passed <==> id in rows && rows[id].hardResult == Passed
    ensures Elements(passed) == HardPassers(rows)
  {
    forall id
      ensures id in Elements(passed) <==> id in HardPassers(rows)
    {
    }
  }

  lemma IsRankedOver(rows: Rows, out: Rows, passed: seq<AppId>)
    requires forall id :: id in passed ==> id in rows
    requires forall id :: id in out <==> id in rows
    requires forall id :: id in rows ==>
               out[id] == if id in passed then RankedRow(rows, Elements(passed), id) else Struck(rows[id])
    ensures out == RankedOver(rows, Elements(passed))
  {
    hide Ranking.Ahead;
    forall id | id in rows
      ensures out[id] == RankedRow(rows, Elements(passed), id)
    {
      assert id in Elements(passed) <==> id in passed;
    }
    assert out.Keys == RankedOver(rows, Elements(passed)).Keys;
  }

  method Rescore(spec: EvaluationSpec, rows: Rows, ids: seq<AppId>) returns (out: Rows, passed: seq<AppId>)
    requires Distinct(ids) && forall id :: id in ids <==> id in rows
    ensures out == Rescored(spec, rows)
    ensures Distinct(passed) && (forall id :: id in passed ==> id in out) && Elements(passed) == GatePassers(spec, rows)
  {
    hide ScoreOf, ScorerFlags, PassesGate;
    out, passed := rows, [];
    for i := 0 to |ids|
      invariant forall id :: id in out <==> id in rows
      invariant forall id :: id in rows ==>
                  out[id] == if id in ids[..i] then RescoredRow(spec, rows[id]) else rows[id]
      invariant Distinct(passed)
      invariant forall id :: id in passed <==> id in ids[..i] && PassesGate(spec, rows[id])
    {
      var id := ids[i];
      assert id in ids && id !in ids[..i];
      var s := Score(spec, rows[id].verdicts);
      GateOfScore(spec, rows[id]);
      out := out[id := out[id].(
        score := Some(s.finalScore), confidence := s.confidence, band := Some(Banded(s.band)),
        hardResult := if s.gate.Passes() then out[id].hardResult else Failed,
        flags := out[id].flags + ScorerFlags(s))];
      if s.gate.Passes() { passed := passed + [id]; }
    }
    assert ids[..|ids|] == ids;
    IsRescored(spec, rows, out, passed);
  }

  class Evaluations {
    const spec: EvaluationSpec
    var rows: Rows
    var overrides: seq<Override>

    constructor (spec: EvaluationSpec)
      ensures this.spec == spec && rows == map[] && overrides == []
    {
      this.spec := spec;
      rows := map[];
      overrides := [];
    }

    /** The insert is refused when the run already holds a row for the application. */
    method PersistLight(app: AppId, stage: D.Stage, output: Option<Verdicts>, failed: bool, injected: bool)
      returns (inserted: bool)
      modifies this`rows
      ensures inserted == (app !in old(rows))
      ensures rows == if inserted then old(rows)[app := LightRow(spec, stage, output, failed, injected)] else old(rows)
    {
      hide ScoreOf, MergeOf, ScorerFlags;
      if app in rows { return false; }
      var judged: Verdicts := map[];
      var hard: HardResult;
      if stage.knockedOut && !stage.borderline {
        hard := Failed;
      } else {
        if output.Some? { judged := output.value; }
        hard := if stage.borderline || stage.knockedOut then Borderline else Passed;
      }
      var merged := MergeVerdicts(spec, stage.verdicts, judged, map[]);
      assert judged + map[] == judged;
      var s := Score(spec, merged);
      if !s.gate.Passes() {
        hard := if !stage.borderline then Failed else Borderline;
      }
      var flags := ScorerFlags(s);
      if failed { flags := flags + {LightScreenFailed}; }
      if injected { flags := flags + {InjectionDetected}; }
      assert flags == ScorerFlags(s) + When(failed, LightScreenFailed) + When(injected, InjectionDetected);
      rows := rows[app := Row(merged, hard, Some(s.finalScore), s.confidence, None, None, flags, false)];
      inserted := true;
    }

    method CopyForward(app: AppId, prior: Row)
      requires app !in rows
      modifies this`rows
      ensures rows == old(rows)[app := CopiedRow(prior)]
    {
      rows := rows[app := prior.(band := None, rank := None)];
    }

    method PersistDeep(app: AppId, stage: D.Stage, deep: Verdicts, split: bool, injected: bool)
      requires app in rows
      modifies this`rows
      ensures rows == old(rows)[app := DeepRow(spec, old(rows)[app], stage, deep, split, injected)]
    {
      hide ScoreOf, MergeOf, ScorerFlags, StoredLight;
      var row := rows[app];
      var merged := MergeVerdicts(spec, stage.verdicts, StoredLight(row.verdicts), deep);
      var s := Score(spec, merged);
      var flags := ScorerFlags(s);
      if split { flags := flags + {VoteDisagreement}; }
      if injected { flags := flags + {InjectionDetected}; }
      assert flags == ScorerFlags(s) + When(split, VoteDisagreement) + When(injected, InjectionDetected);
      rows := rows[app := row.(
        verdicts := merged, hardResult := if s.gate.Passes() then Passed else Failed,
        score := Some(s.finalScore), confidence := s.confidence, flags := flags, deep := true)];
    }

    method PersistDeepFailure(app: AppId)
      requires app in rows
      modifies this`rows
      ensures rows == old(rows)[app := DeepFailedRow(old(rows)[app])]
    {
      rows := rows[app := rows[app].(flags := rows[app].flags + {DeepAnalysisFailed}, deep := true)];
    }

    method ScoreRun()
      modifies this`rows
      ensures rows == ScoredRun(spec, old(rows))
    {
      var ids := Listed(rows.Keys);
      var rescored, passed := Rescore(spec, rows, ids);
      var numbered := Number(rescored, passed);
      rows := StrikeOff(numbered, ids, passed);
      hide *;
      IsRankedOver(rescored, rows, passed);
    }

    method RerankRun()
      modifies this`rows
      ensures rows == Reranked(old(rows))
    {
      var ids := Listed(rows.Keys);
      var passed: seq<AppId> := [];
      for i := 0 to |ids|
        invariant Distinct(passed)
        invariant forall id :: id in passed <==> id in ids[..i] && rows[id].hardResult == Passed
      {
        var id := ids[i];
        assert id in ids;
        if rows[id].hardResult == Passed { passed := passed + [id]; }
      }
      assert ids[..|ids|] == ids;
      IsHardPassers(rows, passed);
      ghost var before := rows;
      var numbered := Number(rows, passed);
      rows := StrikeOff(numbered, ids, passed);
      IsRankedOver(before, rows, passed);
    }

    method CorrectVerdict(app: AppId, reqId: string, kind: VerdictKind) returns (refused: Option<OverrideError>)
      requires app in rows
      modifies this
      ensures refused == Refused(spec, reqId, kind)
      ensures rows == Corrected(spec, old(rows), app, reqId, kind)
      ensures overrides == if refused.Some? then old(overrides) else
                old(overrides) + [Override(app, reqId, if reqId in old(rows)[app].verdicts
                                                       then Some(old(rows)[app].verdicts[reqId].kind) else None, kind)]
    {
      if kind == Disqualified { return Some(NotCorrectable(kind)); }
      if !Asked(spec.requirements, reqId) { return Some(NoSuchRequirement(reqId)); }
      hide ScoreOf, ScorerFlags;
      var row := rows[app];
      var previous := VerdictOf(row.verdicts, reqId);
      overrides := overrides + [Override(app, reqId, if previous.Some? then Some(previous.value.kind) else None, kind)];
      var verdicts := row.verdicts[reqId := Verdict(
        reqId, kind, None, Some(1.0), if previous.Some? then previous.value.infoStatus else None, Some(ByHuman),
        false)];
      var s := Score(spec, verdicts);
      rows := rows[app := row.(
        verdicts := verdicts, score := Some(s.finalScore), confidence := s.confidence, band := Some(Banded(s.band)),
        hardResult := if s.gate.Passes() then Passed else Failed, flags := ScorerFlags(s))];
      RerankRun();
      refused := None;
    }
  }
}
