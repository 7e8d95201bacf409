/** The deterministic scorer (domain/scoring.py): gate, category averages, adjustments, final score. */
module Scoring {
  import opened Wrappers
  import opened Rounding
  import opened Sums
  import opened Spec

  const DEFAULT_CONFIDENCE := 0.7
  const DEFAULT_PENALTY_POINTS := 5.0
  const DEFAULT_BONUS_POINTS := 5.0

  datatype Band = Top | Strong | Possible | Weak
  datatype GateResult = GateResult(failed: seq<string>, unverified: seq<string>) {
    predicate Passes() { failed == [] }
  }
  datatype AdjustmentKind = AddBonus | SubtractPenalty
  datatype Adjustment = Adjustment(kind: AdjustmentKind, reqId: string, points: real)
  datatype CategoryScore = CategoryScore(score: real, weight: real, requirements: seq<string>)
  datatype ReviewReason = LowConfidence | HardRequirementUnverified | DisqualifierTriggered
  datatype ScoreResult = ScoreResult(
    gate: GateResult, categories: map<string, CategoryScore>, baseScore: real,
    adjustments: seq<Adjustment>, finalScore: real, band: Band,
    confidence: Option<real>, reviewReasons: seq<ReviewReason>, missing: set<string>)

  // ----- one verdict -----

  function DefaultScore(kind: VerdictKind): Option<real> {
    match kind
    case Met => Some(1.0)
    case PartiallyMet => Some(0.5)
    case NotMet => Some(0.0)
    case Unknown => None
    case Disqualified => Some(0.0)
  }

  function EffectiveScore(v: Verdict): Option<real> {
    if v.score.Some? then v.score else DefaultScore(v.kind)
  }

  function EffectiveConfidence(v: Verdict): real {
    if v.confidence.Some? then v.confidence.value else DEFAULT_CONFIDENCE
  }

  /** Low confidence pulls a judged score towards half of itself; computed verdicts are not damped. */
  function Damped(raw: real, confidence: real): real {
    raw * (0.5 + 0.5 * confidence)
  }

  function Adjusted(v: Verdict): Option<real> {
    match EffectiveScore(v)
    case None => None
    case Some(raw) =>
      Some(if v.source == Some(ByRule) then raw else Damped(raw, EffectiveConfidence(v)))
  }

  function KindOf(verdicts: Verdicts, id: string): VerdictKind {
    if id in verdicts then verdicts[id].kind else Unknown
  }

  function Times(a: real, b: real): real { a * b }

  // ----- gate -----

  predicate FailsGate(req: Requirement, verdicts: Verdicts) {
    var kind := KindOf(verdicts, req.reqId);
    || (req.kind == Disqualifier && (kind == Met || kind == Disqualified))
    || (req.kind == Hard && (kind == NotMet || (kind == Unknown && req.missingPolicy == AsFailure)))
  }

  predicate Unverified(req: Requirement, verdicts: Verdicts) {
    && req.kind == Hard && !FailsGate(req, verdicts)
    && (KindOf(verdicts, req.reqId) == Unknown
        || (req.reqId in verdicts && verdicts[req.reqId].infoStatus == Some(Inferred)))
  }

  function FailedIds(reqs: seq<Requirement>, verdicts: Verdicts): seq<string> {
    if reqs == [] then []
    else
      var last := reqs[|reqs| - 1];
      FailedIds(reqs[..|reqs| - 1], verdicts) + if FailsGate(last, verdicts) then [last.reqId] else []
  }

  function UnverifiedIds(reqs: seq<Requirement>, verdicts: Verdicts): seq<string> {
    if reqs == [] then []
    else
      var last := reqs[|reqs| - 1];
      UnverifiedIds(reqs[..|reqs| - 1], verdicts) + if Unverified(last, verdicts) then [last.reqId] else []
  }

  function GateOf(reqs: seq<Requirement>, verdicts: Verdicts): GateResult {
    GateResult(FailedIds(reqs, verdicts), UnverifiedIds(reqs, verdicts))
  }

  ghost predicate FailsNamed(reqs: seq<Requirement>, verdicts: Verdicts, id: string) {
    exists i :: 0 <= i < |reqs| && reqs[i].reqId == id && FailsGate(reqs[i], verdicts)
  }

  lemma {:induction false} FailedMeaning(reqs: seq<Requirement>, verdicts: Verdicts, id: string)
    ensures id in FailedIds(reqs, verdicts) <==> FailsNamed(reqs, verdicts, id)
  {
    hide FailsGate;
    if reqs != [] {
      var init, last := reqs[..|reqs| - 1], reqs[|reqs| - 1];
      FailedMeaning(init, verdicts, id);
      if FailsNamed(init, verdicts, id) {
        var i :| 0 <= i < |init| && init[i].reqId == id && FailsGate(init[i], verdicts);
        assert reqs[i] == init[i];
      }
      assert forall i :: 0 <= i < |init| ==> init[i] == reqs[i];
    }
  }

  /** The gate fails exactly when some requirement fails it, and names every such requirement. */
  lemma GateMeaning(reqs: seq<Requirement>, verdicts: Verdicts)
    ensures forall id :: id in FailedIds(reqs, verdicts) <==> FailsNamed(reqs, verdicts, id)
    ensures GateOf(reqs, verdicts).Passes() <==> forall i :: 0 <= i < |reqs| ==> !FailsGate(reqs[i], verdicts)
  {
    hide FailsGate, FailedIds, UnverifiedIds;
    forall id
      ensures id in FailedIds(reqs, verdicts) <==> FailsNamed(reqs, verdicts, id)
    {
      FailedMeaning(reqs, verdicts, id);
    }
    var failed := FailedIds(reqs, verdicts);
    if failed != [] {
      assert failed[0] in failed;
      assert FailsNamed(reqs, verdicts, failed[0]);
    } else {
      forall i | 0 <= i < |reqs|
        ensures !FailsGate(reqs[i], verdicts)
      {
        assert !FailsNamed(reqs, verdicts, reqs[i].reqId);
      }
    }
  }

  method Gate(spec: EvaluationSpec, verdicts: Verdicts) returns (gate: GateResult)
    ensures gate == GateOf(spec.requirements, verdicts)
  {
    var reqs := spec.requirements;
    var failed: seq<string>, unverified: seq<string> := [], [];
    for i := 0 to |reqs|
      invariant failed == FailedIds(reqs[..i], verdicts)
      invariant unverified == UnverifiedIds(reqs[..i], verdicts)
    {
      var req := reqs[i];
      assert reqs[..i + 1][..i] == reqs[..i];
      var kind := KindOf(verdicts, req.reqId);
      if req.kind == Disqualifier && (kind == Met || kind == Disqualified) {
        failed := failed + [req.reqId];
      }
      if req.kind != Hard { continue; }
      if kind == NotMet {
        failed := failed + [req.reqId];
      } else if kind == Unknown {
        if req.missingPolicy == AsFailure {
          failed := failed + [req.reqId];
        } else {
          unverified := unverified + [req.reqId];
        }
      } else if verdicts[req.reqId].infoStatus == Some(Inferred) {
        unverified := unverified + [req.reqId];
      }
    }
    assert reqs[..|reqs|] == reqs;
    gate := GateResult(failed, unverified);
  }

  // ----- category averages -----

  predicate Counts(req: Requirement, verdicts: Verdicts) {
    req.kind == Scored && req.reqId in verdicts && Adjusted(verdicts[req.reqId]).Some?
  }

  predicate CountsIn(req: Requirement, verdicts: Verdicts, category: string) {
    req.category == category && Counts(req, verdicts)
  }

  function WeightTerm(verdicts: Verdicts, category: string): Requirement -> real {
    (req: Requirement) => if CountsIn(req, verdicts, category) then req.weight else 0.0
  }

  function ValueTerm(verdicts: Verdicts, category: string): Requirement -> real {
    (req: Requirement) =>
      if CountsIn(req, verdicts, category) then Times(req.weight, Adjusted(verdicts[req.reqId]).value) else 0.0
  }

  function CategoryWeight(reqs: seq<Requirement>, verdicts: Verdicts, category: string): real {
    Sum(reqs, WeightTerm(verdicts, category))
  }

  function CategoryTotal(reqs: seq<Requirement>, verdicts: Verdicts, category: string): real {
    Sum(reqs, ValueTerm(verdicts, category))
  }

  function CountedIds(reqs: seq<Requirement>, verdicts: Verdicts, category: string): seq<string> {
    if reqs == [] then []
    else
      var last := reqs[|reqs| - 1];
      CountedIds(reqs[..|reqs| - 1], verdicts, category)
      + if CountsIn(last, verdicts, category) then [last.reqId] else []
  }

  function CategoryNames(reqs: seq<Requirement>): set<string> {
    if reqs == [] then {} else {reqs[0].category} + CategoryNames(reqs[1..])
  }

  function SpecWeight(spec: EvaluationSpec, category: string): real {
    if category in spec.weights then spec.weights[category] else 0.0
  }

  function Average(total: real, weight: real): real
    requires weight > 0.0
  {
    Round4(total / weight)
  }

  /** Some requirement of the category is known and has weight to spread. */
  predicate Known(spec: EvaluationSpec, verdicts: Verdicts, c: string) {
    CategoryWeight(spec.requirements, verdicts, c) > 0.0
  }

  function CategoryScoreOf(spec: EvaluationSpec, verdicts: Verdicts, c: string): CategoryScore
    requires Known(spec, verdicts, c)
  {
    CategoryScore(
      Average(CategoryTotal(spec.requirements, verdicts, c), CategoryWeight(spec.requirements, verdicts, c)),
      SpecWeight(spec, c),
      CountedIds(spec.requirements, verdicts, c))
  }

  /** The averages of the categories of the first `n` requirements; an unknown category drops out. */
  function CategoriesUpTo(spec: EvaluationSpec, verdicts: Verdicts, n: nat): map<string, CategoryScore>
    requires n <= |spec.requirements|
  {
    if n == 0 then map[]
    else
      var before := CategoriesUpTo(spec, verdicts, n - 1);
      var c := spec.requirements[n - 1].category;
      if Known(spec, verdicts, c) then before[c := CategoryScoreOf(spec, verdicts, c)] else before
  }

  function CategoriesOf(spec: EvaluationSpec, verdicts: Verdicts): map<string, CategoryScore> {
    CategoriesUpTo(spec, verdicts, |spec.requirements|)
  }

  lemma {:induction false} NamesSnoc(reqs: seq<Requirement>, req: Requirement)
    ensures CategoryNames(reqs + [req]) == CategoryNames(reqs) + {req.category}
  {
    if reqs == [] {
      assert [req][1..] == [];
    } else {
      NamesSnoc(reqs[1..], req);
      assert (reqs + [req])[1..] == reqs[1..] + [req];
    }
  }

  /** A category is averaged exactly when it is named and known. */
  lemma {:induction false} CategoriesMeaning(spec: EvaluationSpec, verdicts: Verdicts, n: nat)
    requires n <= |spec.requirements|
    ensures
      var categories := CategoriesUpTo(spec, verdicts, n);
      && (forall c :: c in categories <==> c in CategoryNames(spec.requirements[..n]) && Known(spec, verdicts, c))
      && (forall c :: c in categories ==> categories[c] == CategoryScoreOf(spec, verdicts, c))
  {
    hide Known, CategoryScoreOf;
    if n > 0 {
      CategoriesMeaning(spec, verdicts, n - 1);
      NamesSnoc(spec.requirements[..n - 1], spec.requirements[n - 1]);
      assert spec.requirements[..n] == spec.requirements[..n - 1] + [spec.requirements[n - 1]];
    }
  }

  lemma CategoriesContents(spec: EvaluationSpec, verdicts: Verdicts)
    ensures
      var categories := CategoriesOf(spec, verdicts);
      && (forall c :: c in categories <==> c in CategoryNames(spec.requirements) && Known(spec, verdicts, c))
      && (forall c :: c in categories ==> categories[c] == CategoryScoreOf(spec, verdicts, c))
  {
    CategoriesMeaning(spec, verdicts, |spec.requirements|);
    assert spec.requirements[..|spec.requirements|] == spec.requirements;
  }

  // ----- base score -----

  function Percent(part: real, whole: real): real {
    if whole <= 0.0 then 0.0 else 100.0 * part / whole
  }

  /** What a category weighs in the base score: nothing when it is unknown or has no positive weight. */
  function WeightPart(spec: EvaluationSpec, verdicts: Verdicts): string -> real {
    (c: string) => if Known(spec, verdicts, c) && SpecWeight(spec, c) > 0.0 then SpecWeight(spec, c) else 0.0
  }

  function WeightedPart(spec: EvaluationSpec, verdicts: Verdicts): string -> real {
    (c: string) =>
      if Known(spec, verdicts, c) && SpecWeight(spec, c) > 0.0
      then Times(SpecWeight(spec, c), CategoryScoreOf(spec, verdicts, c).score) else 0.0
  }

  ghost function BaseOf(spec: EvaluationSpec, verdicts: Verdicts): real {
    Percent(SetSum(CategoryNames(spec.requirements), WeightedPart(spec, verdicts)),
            SetSum(CategoryNames(spec.requirements), WeightPart(spec, verdicts)))
  }

  // ----- adjustments -----

  function PenaltyPoints(req: Requirement): real {
    if req.deterministic.Some? && req.deterministic.value.penaltyPoints.Some?
    then req.deterministic.value.penaltyPoints.value
    else DEFAULT_PENALTY_POINTS
  }

  function BonusPoints(req: Requirement, kind: VerdictKind): real {
    var points := if req.bonusPoints.Some? then req.bonusPoints.value else DEFAULT_BONUS_POINTS;
    if kind == PartiallyMet then points / 2.0 else points
  }

  predicate EarnsBonus(req: Requirement, verdicts: Verdicts) {
    var kind := KindOf(verdicts, req.reqId);
    req.kind == Bonus && (kind == Met || kind == PartiallyMet)
  }

  predicate TakesPenalty(req: Requirement, verdicts: Verdicts) {
    req.kind == Penalty && KindOf(verdicts, req.reqId) == Met
  }

  function Max(a: real, b: real): real { if a < b then b else a }
  function Min(a: real, b: real): real { if a < b then a else b }

  function BonusPart(a: Adjustment): real {
    if a.kind == AddBonus then a.points else 0.0
  }

  function Signed(a: Adjustment): real {
    if a.kind == AddBonus then a.points else -a.points
  }

  function Awarded(adjustments: seq<Adjustment>): real {
    Sum(adjustments, BonusPart)
  }

  /** One requirement's adjustment, given what the bonus cap still leaves. */
  function AdjustmentFor(req: Requirement, verdicts: Verdicts, remaining: real): seq<Adjustment> {
    if TakesPenalty(req, verdicts) then [Adjustment(SubtractPenalty, req.reqId, PenaltyPoints(req))]
    else if EarnsBonus(req, verdicts) then
      var points := Min(BonusPoints(req, KindOf(verdicts, req.reqId)), remaining);
      if points > 0.0 then [Adjustment(AddBonus, req.reqId, points)] else []
    else []
  }

  function AdjustmentsOf(reqs: seq<Requirement>, verdicts: Verdicts, cap: real): seq<Adjustment> {
    if reqs == [] then []
    else Extended(AdjustmentsOf(reqs[..|reqs| - 1], verdicts, cap), reqs[|reqs| - 1], verdicts, cap)
  }

  function Extended(before: seq<Adjustment>, req: Requirement, verdicts: Verdicts, cap: real): seq<Adjustment> {
    before + AdjustmentFor(req, verdicts, Max(0.0, cap - Awarded(before)))
  }

  lemma AdjustmentsSnoc(reqs: seq<Requirement>, verdicts: Verdicts, cap: real, i: nat)
    requires i < |reqs|
    ensures AdjustmentsOf(reqs[..i + 1], verdicts, cap)
         == Extended(AdjustmentsOf(reqs[..i], verdicts, cap), reqs[i], verdicts, cap)
  {
    hide Extended;
    assert reqs[..i + 1][..i] == reqs[..i];
  }

  lemma PenaltyAdds(before: seq<Adjustment>, req: Requirement, verdicts: Verdicts, cap: real)
    requires TakesPenalty(req, verdicts)
    ensures
      var penalty := Adjustment(SubtractPenalty, req.reqId, PenaltyPoints(req));
      Extended(before, req, verdicts, cap) == before + [penalty] && Awarded(before + [penalty]) == Awarded(before)
  {
    SumSnoc(before, Adjustment(SubtractPenalty, req.reqId, PenaltyPoints(req)), BonusPart);
  }

  lemma BonusAdds(before: seq<Adjustment>, req: Requirement, verdicts: Verdicts, cap: real, points: real)
    requires EarnsBonus(req, verdicts)
    requires points == Min(BonusPoints(req, KindOf(verdicts, req.reqId)), Max(0.0, cap - Awarded(before)))
    ensures points <= 0.0 ==> Extended(before, req, verdicts, cap) == before
    ensures points > 0.0 ==>
              var bonus := Adjustment(AddBonus, req.reqId, points);
              && Extended(before, req, verdicts, cap) == before + [bonus]
              && Awarded(before + [bonus]) == Awarded(before) + points
  {
    SumSnoc(before, Adjustment(AddBonus, req.reqId, points), BonusPart);
  }

  lemma NothingAdds(before: seq<Adjustment>, req: Requirement, verdicts: Verdicts, cap: real)
    requires !TakesPenalty(req, verdicts) && !EarnsBonus(req, verdicts)
    ensures Extended(before, req, verdicts, cap) == before
  {
  }

  method Adjustments(spec: EvaluationSpec, verdicts: Verdicts) returns (adjustments: seq<Adjustment>)
    ensures adjustments == AdjustmentsOf(spec.requirements, verdicts, spec.bonusCap)
  {
    var reqs := spec.requirements;
    adjustments := [];
    var bonusTotal := 0.0;
    for i := 0 to |reqs|
      invariant adjustments == AdjustmentsOf(reqs[..i], verdicts, spec.bonusCap)
      invariant bonusTotal == Awarded(adjustments)
    {
      hide AdjustmentsOf, Extended, Awarded;
      var req := reqs[i];
      AdjustmentsSnoc(reqs, verdicts, spec.bonusCap, i);
      var kind := KindOf(verdicts, req.reqId);
      if req.kind == Penalty && kind == Met {
        PenaltyAdds(adjustments, req, verdicts, spec.bonusCap);
        adjustments := adjustments + [Adjustment(SubtractPenalty, req.reqId, PenaltyPoints(req))];
      } else if req.kind == Bonus && (kind == Met || kind == PartiallyMet) {
        var remaining := Max(0.0, spec.bonusCap - bonusTotal);
        var points := Min(BonusPoints(req, kind), remaining);
        BonusAdds(adjustments, req, verdicts, spec.bonusCap, points);
        if points > 0.0 {
          bonusTotal := bonusTotal + points;
          adjustments := adjustments + [Adjustment(AddBonus, req.reqId, points)];
        }
      } else {
        NothingAdds(adjustments, req, verdicts, spec.bonusCap);
      }
    }
    assert reqs[..|reqs|] == reqs;
  }

  // ----- the whole score -----

  function Clamped(x: real): (r: real)
    ensures 0.0 <= r <= 100.0
  {
    Max(0.0, Min(100.0, Round1(x)))
  }

  function BandOf(final: real): Band {
    if final >= 80.0 then Top
    else if final >= 65.0 then Strong
    else if final >= 50.0 then Possible
    else Weak
  }

  predicate Decisive(req: Requirement, verdicts: Verdicts) {
    (req.kind == Hard || req.kind == Scored) && req.reqId in verdicts
  }

  function ConfidenceTerm(verdicts: Verdicts): Requirement -> real {
    (req: Requirement) => if Decisive(req, verdicts) then EffectiveConfidence(verdicts[req.reqId]) else 0.0
  }

  function DecisiveTerm(verdicts: Verdicts): Requirement -> real {
    (req: Requirement) => if Decisive(req, verdicts) then 1.0 else 0.0
  }

  /** The mean confidence over the decisive requirements that have a verdict. */
  function ConfidenceOf(reqs: seq<Requirement>, verdicts: Verdicts): Option<real> {
    var count := Sum(reqs, DecisiveTerm(verdicts));
    if count > 0.0 then Some(Round2(Sum(reqs, ConfidenceTerm(verdicts)) / count)) else None
  }

  predicate AnyDisqualified(verdicts: Verdicts) {
    exists id :: id in verdicts && verdicts[id].kind == Disqualified
  }

  function ReviewReasons(confidence: Option<real>, gate: GateResult, verdicts: Verdicts): seq<ReviewReason> {
    (if confidence.Some? && confidence.value < 0.6 then [LowConfidence] else [])
    + (if gate.unverified != [] then [HardRequirementUnverified] else [])
    + (if AnyDisqualified(verdicts) then [DisqualifierTriggered] else [])
  }

  /** The requirements of the job about which the verdicts know nothing. */
  function MissingIds(reqs: seq<Requirement>, verdicts: Verdicts): set<string> {
    set id | id in verdicts && verdicts[id].kind == Unknown && Asked(reqs, id)
  }

  /** The result document's numbers, from the parts the scorer has computed. */
  function Assembled(gate: GateResult, categories: map<string, CategoryScore>, base: real,
                     adjustments: seq<Adjustment>, final: real, confidence: Option<real>,
                     verdicts: Verdicts, missing: set<string>): ScoreResult
  {
    ScoreResult(gate, categories, Round1(base), adjustments, final, BandOf(final), confidence,
                ReviewReasons(confidence, gate, verdicts), missing)
  }

  ghost function FinalOf(base: real, adjustments: seq<Adjustment>): real {
    Clamped(base + Sum(adjustments, Signed))
  }

  ghost function ScoreOf(spec: EvaluationSpec, verdicts: Verdicts): ScoreResult {
    var base := BaseOf(spec, verdicts);
    var adjustments := AdjustmentsOf(spec.requirements, verdicts, spec.bonusCap);
    Assembled(GateOf(spec.requirements, verdicts), CategoriesOf(spec, verdicts), base, adjustments,
              FinalOf(base, adjustments), ConfidenceOf(spec.requirements, verdicts), verdicts,
              MissingIds(spec.requirements, verdicts))
  }

  // ----- the loops that compute it -----

  datatype Entry = Entry(req: Requirement, adjusted: real)

  function EntryWeight(e: Entry): real { e.req.weight }
  function EntryValue(e: Entry): real { Times(e.req.weight, e.adjusted) }

  /** A bucket holds, in order, what its category counts so far. */
  ghost predicate Holds(bucket: seq<Entry>, reqs: seq<Requirement>, verdicts: Verdicts, category: string) {
    && Sum(bucket, EntryWeight) == CategoryWeight(reqs, verdicts, category)
    && Sum(bucket, EntryValue) == CategoryTotal(reqs, verdicts, category)
    && Ids(bucket) == CountedIds(reqs, verdicts, category)
  }

  function Ids(bucket: seq<Entry>): seq<string> {
    if bucket == [] then [] else Ids(bucket[..|bucket| - 1]) + [bucket[|bucket| - 1].req.reqId]
  }

  lemma HoldsSnoc(bucket: seq<Entry>, reqs: seq<Requirement>, verdicts: Verdicts, category: string, req: Requirement)
    requires Holds(bucket, reqs, verdicts, category)
    ensures !CountsIn(req, verdicts, category) ==> Holds(bucket, reqs + [req], verdicts, category)
    ensures CountsIn(req, verdicts, category) ==>
              Holds(bucket + [Entry(req, Adjusted(verdicts[req.reqId]).value)], reqs + [req], verdicts, category)
  {
    SumSnoc(reqs, req, WeightTerm(verdicts, category));
    SumSnoc(reqs, req, ValueTerm(verdicts, category));
    assert (reqs + [req])[..|reqs|] == reqs;
    if CountsIn(req, verdicts, category) {
      var entry := Entry(req, Adjusted(verdicts[req.reqId]).value);
      SumSnoc(bucket, entry, EntryWeight);
      SumSnoc(bucket, entry, EntryValue);
      assert (bucket + [entry])[..|bucket|] == bucket;
    }
  }

  function Bucket(buckets: map<string, seq<Entry>>, category: string): seq<Entry> {
    if category in buckets then buckets[category] else []
  }

  method FillBuckets(spec: EvaluationSpec, verdicts: Verdicts) returns (buckets: map<string, seq<Entry>>)
    ensures forall c :: Holds(Bucket(buckets, c), spec.requirements, verdicts, c)
    ensures forall c :: c in buckets ==> c in CategoryNames(spec.requirements)
  {
    var reqs := spec.requirements;
    buckets := map[];
    for i := 0 to |reqs|
      invariant forall c :: Holds(Bucket(buckets, c), reqs[..i], verdicts, c)
      invariant forall c :: c in buckets ==> c in CategoryNames(reqs[..i])
    {
      var req := reqs[i];
      NamesSnoc(reqs[..i], req);
      ghost var before := buckets;
      assert reqs[..i + 1] == reqs[..i] + [req];
      if req.kind == Scored && req.reqId in verdicts {
        match EffectiveScore(verdicts[req.reqId]) {
          case None =>
          case Some(raw) =>
            var v := verdicts[req.reqId];
            var adjusted := Damped(raw, EffectiveConfidence(v));
            if v.source == Some(ByRule) {
              adjusted := raw;
            }
            buckets := buckets[req.category := Bucket(buckets, req.category) + [Entry(req, adjusted)]];
        }
      }
      forall c
        ensures Holds(Bucket(buckets, c), reqs[..i + 1], verdicts, c)
      {
        HoldsSnoc(Bucket(before, c), reqs[..i], verdicts, c, req);
      }
    }
    assert reqs[..|reqs|] == reqs;
  }

  method SumEntries(bucket: seq<Entry>) returns (weight: real, value: real, ids: seq<string>)
    ensures weight == Sum(bucket, EntryWeight) && value == Sum(bucket, EntryValue) && ids == Ids(bucket)
  {
    weight, value, ids := 0.0, 0.0, [];
    for i := 0 to |bucket|
      invariant weight == Sum(bucket[..i], EntryWeight) && value == Sum(bucket[..i], EntryValue)
      invariant ids == Ids(bucket[..i])
    {
      SumSnoc(bucket[..i], bucket[i], EntryWeight);
      SumSnoc(bucket[..i], bucket[i], EntryValue);
      assert bucket[..i + 1] == bucket[..i] + [bucket[i]];
      assert bucket[..i + 1][..i] == bucket[..i];
      weight, value, ids := weight + bucket[i].req.weight, value + bucket[i].req.weight * bucket[i].adjusted,
        ids + [bucket[i].req.reqId];
    }
    assert bucket[..|bucket|] == bucket;
  }

  method AverageBucket(spec: EvaluationSpec, ghost verdicts: Verdicts, c: string, bucket: seq<Entry>)
    returns (average: Option<CategoryScore>)
    requires Holds(bucket, spec.requirements, verdicts, c)
    ensures average == if Known(spec, verdicts, c) then Some(CategoryScoreOf(spec, verdicts, c)) else None
  {
    var weight, value, ids := SumEntries(bucket);
    average := if weight <= 0.0 then None else Some(CategoryScore(Round4(value / weight), SpecWeight(spec, c), ids));
  }

  method CategoryScores(spec: EvaluationSpec, verdicts: Verdicts) returns (out: map<string, CategoryScore>)
    ensures out == CategoriesOf(spec, verdicts)
  {
    var buckets := FillBuckets(spec, verdicts);
    out := map[];
    var left := buckets.Keys;
    while left != {}
      invariant left <= buckets.Keys
      invariant forall c :: c in out <==> c in buckets.Keys - left && Known(spec, verdicts, c)
      invariant forall c :: c in out ==> out[c] == CategoryScoreOf(spec, verdicts, c)
      decreases left
    {
      var c :| c in left;
      assert Holds(Bucket(buckets, c), spec.requirements, verdicts, c);
      var average := AverageBucket(spec, verdicts, c, buckets[c]);
      if average.Some? {
        out := out[c := average.value];
      }
      left := left - {c};
    }
    SameCategories(spec, verdicts, buckets, out);
  }

  /** A category without a bucket is not known, so leaving it out changes nothing. */
  lemma SameCategories(spec: EvaluationSpec, verdicts: Verdicts, buckets: map<string, seq<Entry>>,
                       out: map<string, CategoryScore>)
    requires forall c :: Holds(Bucket(buckets, c), spec.requirements, verdicts, c)
    requires forall c :: c in buckets ==> c in CategoryNames(spec.requirements)
    requires forall c :: c in out <==> c in buckets.Keys && Known(spec, verdicts, c)
    requires forall c :: c in out ==> out[c] == CategoryScoreOf(spec, verdicts, c)
    ensures out == CategoriesOf(spec, verdicts)
  {
    CategoriesContents(spec, verdicts);
    forall c
      ensures c in out <==> c in CategoriesOf(spec, verdicts)
    {
      assert Holds(Bucket(buckets, c), spec.requirements, verdicts, c);
    }
  }

  ghost predicate Averages(categories: map<string, CategoryScore>, spec: EvaluationSpec, verdicts: Verdicts) {
    && (forall c :: c in categories <==> c in CategoryNames(spec.requirements) && Known(spec, verdicts, c))
    && (forall c :: c in categories ==> categories[c] == CategoryScoreOf(spec, verdicts, c))
  }

  lemma PartsFromAverages(spec: EvaluationSpec, verdicts: Verdicts, categories: map<string, CategoryScore>, c: string)
    requires Averages(categories, spec, verdicts) && c in CategoryNames(spec.requirements)
    ensures
      var active := c in categories && categories[c].weight > 0.0;
      && WeightPart(spec, verdicts)(c) == (if active then categories[c].weight else 0.0)
      && WeightedPart(spec, verdicts)(c) == (if active then Times(categories[c].weight, categories[c].score) else 0.0)
  {
    hide Times, Known, SpecWeight, CategoryNames;
  }

  lemma BaseFromAverages(spec: EvaluationSpec, verdicts: Verdicts, categories: map<string, CategoryScore>,
                         active: set<string>)
    requires Averages(categories, spec, verdicts)
    requires forall c :: c in active <==> c in categories && categories[c].weight > 0.0
    ensures forall c :: c in active ==>
              && WeightPart(spec, verdicts)(c) == categories[c].weight
              && WeightedPart(spec, verdicts)(c) == Times(categories[c].weight, categories[c].score)
    ensures BaseOf(spec, verdicts)
         == Percent(SetSum(active, WeightedPart(spec, verdicts)), SetSum(active, WeightPart(spec, verdicts)))
  {
    var names := CategoryNames(spec.requirements);
    var weights, products := WeightPart(spec, verdicts), WeightedPart(spec, verdicts);
    BaseIs(spec, verdicts);
    hide BaseOf, Percent, WeightPart, WeightedPart, Times, Known, CategoryScoreOf, CategoryNames;
    forall c | c in names
      ensures weights(c) == if c in active then categories[c].weight else 0.0
      ensures products(c) == if c in active then Times(categories[c].weight, categories[c].score) else 0.0
    {
      PartsFromAverages(spec, verdicts, categories, c);
    }
    SetSumShrinks(names, active, weights);
    SetSumShrinks(names, active, products);
  }

  lemma BaseIs(spec: EvaluationSpec, verdicts: Verdicts)
    ensures BaseOf(spec, verdicts)
         == Percent(SetSum(CategoryNames(spec.requirements), WeightedPart(spec, verdicts)),
                    SetSum(CategoryNames(spec.requirements), WeightPart(spec, verdicts)))
  {
  }

  method BaseScore(ghost spec: EvaluationSpec, ghost verdicts: Verdicts, categories: map<string, CategoryScore>)
    returns (base: real)
    requires Averages(categories, spec, verdicts)
    ensures base == BaseOf(spec, verdicts)
  {
    var active := set c | c in categories && categories[c].weight > 0.0;
    ghost var weights, products := WeightPart(spec, verdicts), WeightedPart(spec, verdicts);
    BaseFromAverages(spec, verdicts, categories, active);
    hide BaseOf, Percent, WeightPart, WeightedPart, Times, Averages;
    var left := active;
    var weight, weighted := 0.0, 0.0;
    while left != {}
      invariant left <= active
      invariant weight + SetSum(left, weights) == SetSum(active, weights)
      invariant weighted + SetSum(left, products) == SetSum(active, products)
      decreases left
    {
      var c :| c in left;
      SetSumPick(left, c, weights);
      SetSumPick(left, c, products);
      left := left - {c};
      weight, weighted := weight + categories[c].weight, weighted + Times(categories[c].weight, categories[c].score);
    }
    base := Percent(weighted, weight);
  }

  method MeanConfidence(spec: EvaluationSpec, verdicts: Verdicts) returns (mean: Option<real>)
    ensures mean == ConfidenceOf(spec.requirements, verdicts)
  {
    var reqs := spec.requirements;
    var total, count := 0.0, 0;
    for i := 0 to |reqs|
      invariant total == Sum(reqs[..i], ConfidenceTerm(verdicts))
      invariant count as real == Sum(reqs[..i], DecisiveTerm(verdicts))
    {
      assert reqs[..i + 1] == reqs[..i] + [reqs[i]];
      SumSnoc(reqs[..i], reqs[i], ConfidenceTerm(verdicts));
      SumSnoc(reqs[..i], reqs[i], DecisiveTerm(verdicts));
      if Decisive(reqs[i], verdicts) {
        total, count := total + EffectiveConfidence(verdicts[reqs[i].reqId]), count + 1;
      }
    }
    assert reqs[..|reqs|] == reqs;
    mean := if count > 0 then Some(Round2(total / count as real)) else None;
  }

  method ApplyAdjustments(base: real, adjustments: seq<Adjustment>) returns (final: real)
    ensures final == FinalOf(base, adjustments)
  {
    final := base;
    for i := 0 to |adjustments|
      invariant final == base + Sum(adjustments[..i], Signed)
    {
      SumSnoc(adjustments[..i], adjustments[i], Signed);
      assert adjustments[..i + 1] == adjustments[..i] + [adjustments[i]];
      final := final + (if adjustments[i].kind == AddBonus then adjustments[i].points else -adjustments[i].points);
    }
    assert adjustments[..|adjustments|] == adjustments;
    final := Max(0.0, Min(100.0, Round1(final)));
  }

  method MissingInformation(spec: EvaluationSpec, verdicts: Verdicts) returns (missing: set<string>)
    ensures missing == MissingIds(spec.requirements, verdicts)
  {
    missing := {};
    var left := verdicts.Keys;
    while left != {}
      invariant left <= verdicts.Keys
      invariant forall id :: id in missing <==> id in MissingIds(spec.requirements, verdicts) && id !in left
      decreases left
    {
      var id :| id in left;
      if verdicts[id].kind == Unknown && Asked(spec.requirements, id) {
        missing := missing + {id};
      }
      left := left - {id};
    }
  }

  /** The scorer as it runs: every loop above, one after the other. */
  method Score(spec: EvaluationSpec, verdicts: Verdicts) returns (result: ScoreResult)
    ensures result == ScoreOf(spec, verdicts)
  {
    var gate := Gate(spec, verdicts);
    var categories := CategoryScores(spec, verdicts);
    CategoriesContents(spec, verdicts);
    var base := BaseScore(spec, verdicts, categories);
    var adjustments := Adjustments(spec, verdicts);
    var final := ApplyAdjustments(base, adjustments);
    var confidence := MeanConfidence(spec, verdicts);
    var missing := MissingInformation(spec, verdicts);
    result := Assembled(gate, categories, base, adjustments, final, confidence, verdicts, missing);
  }
}
