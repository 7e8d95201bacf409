/** What the scorer promises, over every specification and every set of verdicts. */
module ScoringLaws {
  import opened Wrappers
  import opened Rounding
  import opened Sums
  import opened Spec
  import opened Scoring

  // ----- bonuses and penalties in closed form -----

  function BonusTerm(verdicts: Verdicts): Requirement -> real {
    (req: Requirement) =>
      if EarnsBonus(req, verdicts) then Max(0.0, BonusPoints(req, KindOf(verdicts, req.reqId))) else 0.0
  }

  function PenaltyTerm(verdicts: Verdicts): Requirement -> real {
    (req: Requirement) => if TakesPenalty(req, verdicts) then PenaltyPoints(req) else 0.0
  }

  function CappedBonus(reqs: seq<Requirement>, verdicts: Verdicts, cap: real): real {
    Min(Max(0.0, cap), Sum(reqs, BonusTerm(verdicts)))
  }

  function NetOf(reqs: seq<Requirement>, verdicts: Verdicts, cap: real): real {
    CappedBonus(reqs, verdicts, cap) - Sum(reqs, PenaltyTerm(verdicts))
  }

  lemma OneAdjustment(req: Requirement, verdicts: Verdicts, remaining: real)
    requires remaining >= 0.0
    ensures Awarded(AdjustmentFor(req, verdicts, remaining)) == Min(BonusTerm(verdicts)(req), remaining)
    ensures Sum(AdjustmentFor(req, verdicts, remaining), Signed)
         == Min(BonusTerm(verdicts)(req), remaining) - PenaltyTerm(verdicts)(req)
  {
    var one := AdjustmentFor(req, verdicts, remaining);
    if one != [] {
      SumOne(one[0], BonusPart);
      SumOne(one[0], Signed);
      assert one == [one[0]];
    }
  }

  lemma CapArithmetic(cap: real, sum: real, bonus: real)
    requires sum >= 0.0 && bonus >= 0.0
    ensures
      var awarded := Min(Max(0.0, cap), sum);
      awarded + Min(bonus, Max(0.0, cap - awarded)) == Min(Max(0.0, cap), sum + bonus)
  {
  }

  /** The greedy loop hands out exactly the capped sum of the positive bonuses. */
  lemma {:induction false} GreedyBonusIsCappedSum(reqs: seq<Requirement>, verdicts: Verdicts, cap: real)
    ensures Awarded(AdjustmentsOf(reqs, verdicts, cap)) == CappedBonus(reqs, verdicts, cap)
    ensures Sum(AdjustmentsOf(reqs, verdicts, cap), Signed) == NetOf(reqs, verdicts, cap)
  {
    if reqs != [] {
      var init, last := reqs[..|reqs| - 1], reqs[|reqs| - 1];
      GreedyBonusIsCappedSum(init, verdicts, cap);
      GreedyStep(init, last, AdjustmentsOf(init, verdicts, cap), verdicts, cap);
      hide Extended;
      assert init + [last] == reqs;
    }
  }

  lemma GreedyStep(init: seq<Requirement>, last: Requirement, before: seq<Adjustment>, verdicts: Verdicts, cap: real)
    requires Awarded(before) == CappedBonus(init, verdicts, cap)
    requires Sum(before, Signed) == NetOf(init, verdicts, cap)
    ensures
      var after := Extended(before, last, verdicts, cap);
      && Awarded(after) == CappedBonus(init + [last], verdicts, cap)
      && Sum(after, Signed) == NetOf(init + [last], verdicts, cap)
  {
    var remaining := Max(0.0, cap - Awarded(before));
    var one := AdjustmentFor(last, verdicts, remaining);
    OneAdjustment(last, verdicts, remaining);
    SumAppend(before, one, BonusPart);
    SumAppend(before, one, Signed);
    SumSnoc(init, last, BonusTerm(verdicts));
    SumSnoc(init, last, PenaltyTerm(verdicts));
    SumNonNegative(init, BonusTerm(verdicts));
    CapArithmetic(cap, Sum(init, BonusTerm(verdicts)), BonusTerm(verdicts)(last));
  }

  /** The final score from the base score and the net adjustment. */
  lemma FinalParts(spec: EvaluationSpec, verdicts: Verdicts)
    ensures ScoreOf(spec, verdicts).finalScore
         == FinalOf(BaseOf(spec, verdicts), AdjustmentsOf(spec.requirements, verdicts, spec.bonusCap))
    ensures ScoreOf(spec, verdicts).baseScore == Round1(BaseOf(spec, verdicts))
    ensures ScoreOf(spec, verdicts).gate == GateOf(spec.requirements, verdicts)
    ensures ScoreOf(spec, verdicts).categories == CategoriesOf(spec, verdicts)
    ensures ScoreOf(spec, verdicts).confidence == ConfidenceOf(spec.requirements, verdicts)
    ensures ScoreOf(spec, verdicts).band == BandOf(ScoreOf(spec, verdicts).finalScore)
  {
  }

  lemma NetInside(base: real, adjustments: seq<Adjustment>, net: real)
    requires Sum(adjustments, Signed) == net
    ensures FinalOf(base, adjustments) == Clamped(base + net)
  {
  }

  lemma FinalClosedForm(spec: EvaluationSpec, verdicts: Verdicts)
    ensures ScoreOf(spec, verdicts).finalScore
         == Clamped(BaseOf(spec, verdicts) + NetOf(spec.requirements, verdicts, spec.bonusCap))
    ensures ScoreOf(spec, verdicts).baseScore == Round1(BaseOf(spec, verdicts))
  {
    hide *;
    FinalParts(spec, verdicts);
    GreedyBonusIsCappedSum(spec.requirements, verdicts, spec.bonusCap);
    NetInside(BaseOf(spec, verdicts), AdjustmentsOf(spec.requirements, verdicts, spec.bonusCap),
              NetOf(spec.requirements, verdicts, spec.bonusCap));
  }

  // ----- bounds -----

  /** Scores and confidences stay in [0, 1], and no requirement has a negative weight. */
  ghost predicate Normal(reqs: seq<Requirement>, verdicts: Verdicts) {
    && (forall i :: 0 <= i < |reqs| ==> reqs[i].weight >= 0.0)
    && (forall id :: id in verdicts ==>
          && (verdicts[id].score.Some? ==> 0.0 <= verdicts[id].score.value <= 1.0)
          && (verdicts[id].confidence.Some? ==> 0.0 <= verdicts[id].confidence.value <= 1.0))
  }

  lemma AdjustedBounded(v: Verdict)
    requires v.score.Some? ==> 0.0 <= v.score.value <= 1.0
    requires v.confidence.Some? ==> 0.0 <= v.confidence.value <= 1.0
    ensures Adjusted(v).Some? ==> 0.0 <= Adjusted(v).value <= 1.0
  {
    if Adjusted(v).Some? {
      DampedBounded(EffectiveScore(v).value, EffectiveConfidence(v));
    }
  }

  lemma DampedBounded(raw: real, confidence: real)
    requires 0.0 <= raw <= 1.0 && 0.0 <= confidence <= 1.0
    ensures 0.0 <= Damped(raw, confidence) <= raw
  {
    var factor := 0.5 + 0.5 * confidence;
    assert 0.0 <= factor <= 1.0;
    assert raw * factor <= raw;
  }

  lemma ProductBounded(weight: real, x: real)
    requires weight >= 0.0 && 0.0 <= x <= 1.0
    ensures 0.0 <= Times(weight, x) <= weight
  {
  }

  lemma RatioBounded(part: real, whole: real)
    requires whole > 0.0 && 0.0 <= part <= whole
    ensures 0.0 <= part / whole <= 1.0
    ensures 0.0 <= Percent(part, whole) <= 100.0
  {
  }

  lemma AverageBounded(total: real, weight: real)
    requires weight > 0.0 && 0.0 <= total <= weight
    ensures 0.0 <= Average(total, weight) <= 1.0
  {
    RatioBounded(total, weight);
    RoundBounded(total / weight, 0, 10000, 10000.0);
  }

  lemma TermBounded(req: Requirement, verdicts: Verdicts, c: string)
    requires Normal([req], verdicts)
    ensures 0.0 <= ValueTerm(verdicts, c)(req) <= WeightTerm(verdicts, c)(req)
  {
    assert [req][0].weight >= 0.0;
    if CountsIn(req, verdicts, c) {
      AdjustedBounded(verdicts[req.reqId]);
      ProductBounded(req.weight, Adjusted(verdicts[req.reqId]).value);
    }
  }

  lemma CategoryBounded(spec: EvaluationSpec, verdicts: Verdicts, c: string)
    requires Normal(spec.requirements, verdicts)
    requires Known(spec, verdicts, c)
    ensures 0.0 <= CategoryScoreOf(spec, verdicts, c).score <= 1.0
  {
    var reqs := spec.requirements;
    var w, v := WeightTerm(verdicts, c), ValueTerm(verdicts, c);
    forall req | req in reqs
      ensures 0.0 <= v(req) <= w(req)
    {
      TermBounded(req, verdicts, c);
    }
    SumNonNegative(reqs, v);
    SumMonotone(reqs, v, w);
    AverageBounded(Sum(reqs, v), Sum(reqs, w));
  }

  lemma PartBounded(spec: EvaluationSpec, verdicts: Verdicts, c: string)
    requires Normal(spec.requirements, verdicts)
    ensures 0.0 <= WeightedPart(spec, verdicts)(c) <= WeightPart(spec, verdicts)(c)
  {
    if Known(spec, verdicts, c) && SpecWeight(spec, c) > 0.0 {
      CategoryBounded(spec, verdicts, c);
      ProductBounded(SpecWeight(spec, c), CategoryScoreOf(spec, verdicts, c).score);
    }
  }

  /** However the judgments fall, the base score is a number between 0 and 100; so is the final one. */
  lemma ScoreBounded(spec: EvaluationSpec, verdicts: Verdicts)
    requires Normal(spec.requirements, verdicts)
    ensures 0.0 <= BaseOf(spec, verdicts) <= 100.0
    ensures 0.0 <= ScoreOf(spec, verdicts).baseScore <= 100.0
    ensures 0.0 <= ScoreOf(spec, verdicts).finalScore <= 100.0
  {
    BaseInRange(spec, verdicts);
    Round1Bounded(BaseOf(spec, verdicts));
    FinalParts(spec, verdicts);
  }

  lemma BaseInRange(spec: EvaluationSpec, verdicts: Verdicts)
    requires Normal(spec.requirements, verdicts)
    ensures 0.0 <= BaseOf(spec, verdicts) <= 100.0
  {
    var names := CategoryNames(spec.requirements);
    var w, v := WeightPart(spec, verdicts), WeightedPart(spec, verdicts);
    forall c
      ensures 0.0 <= v(c) <= w(c)
    {
      PartBounded(spec, verdicts, c);
    }
    SetSumNonNegative(names, v);
    SetSumMonotone(names, v, w);
    PercentBounded(SetSum(names, v), SetSum(names, w));
  }

  lemma PercentBounded(part: real, whole: real)
    requires 0.0 <= part <= whole
    ensures 0.0 <= Percent(part, whole) <= 100.0
  {
    if whole > 0.0 {
      RatioBounded(part, whole);
    }
  }

  lemma Round1Bounded(x: real)
    requires 0.0 <= x <= 100.0
    ensures 0.0 <= Round1(x) <= 100.0
  {
    RoundBounded(x, 0, 1000, 10.0);
  }

  // ----- monotonicity -----

  lemma ClampedMonotone(x: real, y: real)
    requires x <= y
    ensures Clamped(x) <= Clamped(y)
  {
    RoundMonotone(x, y, 10.0);
  }

  /** The same verdicts, except that what scored requirements contribute may be higher. */
  ghost predicate NoLower(reqs: seq<Requirement>, low: Verdicts, high: Verdicts) {
    && ContributesNoLess(reqs, low, high)
    && low.Keys == high.Keys && (forall id :: id in low ==> low[id].kind == high[id].kind)
  }

  /** The same scored requirements count, and none contributes less. */
  ghost predicate ContributesNoLess(reqs: seq<Requirement>, low: Verdicts, high: Verdicts) {
    && (forall req :: req in reqs && Counts(req, low) ==>
          Counts(req, high) && Adjusted(low[req.reqId]).value <= Adjusted(high[req.reqId]).value)
    && (forall req :: req in reqs && Counts(req, high) ==> Counts(req, low))
  }

  lemma ProductMonotone(weight: real, x: real, y: real)
    requires weight >= 0.0 && x <= y
    ensures Times(weight, x) <= Times(weight, y)
  {
  }

  lemma AverageMonotone(low: real, high: real, weight: real)
    requires weight > 0.0 && low <= high
    ensures Average(low, weight) <= Average(high, weight)
  {
    DivideMonotone(low, high, weight);
    RoundMonotone(low / weight, high / weight, 10000.0);
  }

  lemma CategoryMonotone(spec: EvaluationSpec, low: Verdicts, high: Verdicts, c: string)
    requires ContributesNoLess(spec.requirements, low, high)
    requires forall req :: req in spec.requirements ==> req.weight >= 0.0
    ensures Known(spec, low, c) <==> Known(spec, high, c)
    ensures Known(spec, low, c) ==> CategoryScoreOf(spec, low, c).score <= CategoryScoreOf(spec, high, c).score
  {
    var reqs := spec.requirements;
    SumEqual(reqs, WeightTerm(low, c), WeightTerm(high, c));
    forall req | req in reqs
      ensures ValueTerm(low, c)(req) <= ValueTerm(high, c)(req)
    {
      if CountsIn(req, low, c) {
        ProductMonotone(req.weight, Adjusted(low[req.reqId]).value, Adjusted(high[req.reqId]).value);
      }
    }
    SumMonotone(reqs, ValueTerm(low, c), ValueTerm(high, c));
    if Known(spec, low, c) {
      AverageMonotone(CategoryTotal(reqs, low, c), CategoryTotal(reqs, high, c), CategoryWeight(reqs, low, c));
    }
  }

  lemma PartMonotone(spec: EvaluationSpec, low: Verdicts, high: Verdicts, c: string)
    requires ContributesNoLess(spec.requirements, low, high)
    requires forall req :: req in spec.requirements ==> req.weight >= 0.0
    ensures WeightPart(spec, low)(c) == WeightPart(spec, high)(c)
    ensures WeightedPart(spec, low)(c) <= WeightedPart(spec, high)(c)
  {
    CategoryMonotone(spec, low, high, c);
    if Known(spec, low, c) && SpecWeight(spec, c) > 0.0 {
      ProductMonotone(SpecWeight(spec, c), CategoryScoreOf(spec, low, c).score, CategoryScoreOf(spec, high, c).score);
    }
  }

  lemma PercentMonotone(low: real, high: real, whole: real)
    requires low <= high
    ensures Percent(low, whole) <= Percent(high, whole)
  {
    if whole > 0.0 {
      DivideMonotone(100.0 * low, 100.0 * high, whole);
    }
  }

  lemma NetFollowsKinds(reqs: seq<Requirement>, a: Verdicts, b: Verdicts, cap: real)
    requires a.Keys == b.Keys && forall id :: id in a ==> a[id].kind == b[id].kind
    ensures NetOf(reqs, a, cap) == NetOf(reqs, b, cap)
  {
    SumEqual(reqs, BonusTerm(a), BonusTerm(b));
    SumEqual(reqs, PenaltyTerm(a), PenaltyTerm(b));
  }

  lemma NetNoLower(reqs: seq<Requirement>, low: Verdicts, high: Verdicts, cap: real)
    requires NoLower(reqs, low, high)
    ensures NetOf(reqs, low, cap) == NetOf(reqs, high, cap)
  {
    NetFollowsKinds(reqs, low, high, cap);
  }

  lemma BaseFollows(spec: EvaluationSpec, low: Verdicts, high: Verdicts)
    requires ContributesNoLess(spec.requirements, low, high)
    requires forall req :: req in spec.requirements ==> req.weight >= 0.0
    ensures BaseOf(spec, low) <= BaseOf(spec, high)
  {
    var names := CategoryNames(spec.requirements);
    forall c
      ensures WeightPart(spec, low)(c) == WeightPart(spec, high)(c)
      ensures WeightedPart(spec, low)(c) <= WeightedPart(spec, high)(c)
    {
      PartMonotone(spec, low, high, c);
    }
    SetSumEqual(names, WeightPart(spec, low), WeightPart(spec, high));
    SetSumMonotone(names, WeightedPart(spec, low), WeightedPart(spec, high));
    PercentMonotone(SetSum(names, WeightedPart(spec, low)), SetSum(names, WeightedPart(spec, high)),
                    SetSum(names, WeightPart(spec, low)));
  }

  lemma NoLowerContributes(reqs: seq<Requirement>, low: Verdicts, high: Verdicts)
    requires NoLower(reqs, low, high)
    ensures ContributesNoLess(reqs, low, high)
  {
  }

  lemma FinalFollows(low: real, high: real, net: real, more: real)
    requires low <= high && net <= more
    ensures Clamped(low + net) <= Clamped(high + more)
  {
    ClampedMonotone(low + net, high + more);
  }

  lemma FinalMonotone(spec: EvaluationSpec, low: Verdicts, high: Verdicts)
    requires NoLower(spec.requirements, low, high)
    requires forall req :: req in spec.requirements ==> req.weight >= 0.0
    ensures ScoreOf(spec, low).finalScore <= ScoreOf(spec, high).finalScore
  {
    hide *;
    NoLowerContributes(spec.requirements, low, high);
    BaseFollows(spec, low, high);
    NetNoLower(spec.requirements, low, high, spec.bonusCap);

    FinalClosedForm(spec, low);
    FinalClosedForm(spec, high);
    FinalFollows(BaseOf(spec, low), BaseOf(spec, high), NetOf(spec.requirements, low, spec.bonusCap),
                 NetOf(spec.requirements, high, spec.bonusCap));
  }

  lemma DampedMonotone(raw: real, better: real, confidence: real, surer: real)
    requires 0.0 <= raw <= better && 0.0 <= confidence <= surer
    ensures Damped(raw, confidence) <= Damped(better, surer)
  {
    var low, high := 0.5 + 0.5 * confidence, 0.5 + 0.5 * surer;
    assert raw * low <= better * low;
    assert better * low <= better * high;
  }

  /** A better score, or a surer judge, on a verdict that already has a score never costs a point. */
  lemma RaisingNeverLowers(spec: EvaluationSpec, verdicts: Verdicts, id: string, score: real, confidence: real)
    requires forall req :: req in spec.requirements ==> req.weight >= 0.0
    requires id in verdicts && EffectiveScore(verdicts[id]).Some?
    requires 0.0 <= EffectiveScore(verdicts[id]).value <= score
    requires 0.0 <= EffectiveConfidence(verdicts[id]) <= confidence
    ensures
      var raised := verdicts[id := verdicts[id].(score := Some(score), confidence := Some(confidence))];
      ScoreOf(spec, verdicts).finalScore <= ScoreOf(spec, raised).finalScore
  {
    var raised := verdicts[id := verdicts[id].(score := Some(score), confidence := Some(confidence))];
    DampedMonotone(EffectiveScore(verdicts[id]).value, score, EffectiveConfidence(verdicts[id]), confidence);
    assert Adjusted(verdicts[id]).value <= Adjusted(raised[id]).value;
    FinalMonotone(spec, verdicts, raised);
  }

  // ----- missing is not negative -----

  function Without(reqs: seq<Requirement>, i: nat): seq<Requirement>
    requires i < |reqs|
  {
    reqs[..i] + reqs[i + 1..]
  }

  /** A scored, bonus or penalty requirement about which nothing is known. */
  ghost predicate NothingKnown(req: Requirement, verdicts: Verdicts) {
    && (req.kind == Scored || req.kind == Bonus || req.kind == Penalty)
    && KindOf(verdicts, req.reqId) == Unknown
    && (req.reqId in verdicts ==> verdicts[req.reqId].score == None)
  }

  lemma WithoutInit(reqs: seq<Requirement>, i: nat)
    requires i < |reqs| - 1
    ensures Without(reqs, i) != [] && Without(reqs, i)[|reqs| - 2] == reqs[|reqs| - 1]
    ensures Without(reqs, i)[..|reqs| - 2] == Without(reqs[..|reqs| - 1], i)
  {
  }

  lemma {:induction false} GateWithout(reqs: seq<Requirement>, verdicts: Verdicts, i: nat)
    requires i < |reqs| && !FailsGate(reqs[i], verdicts) && !Unverified(reqs[i], verdicts)
    ensures GateOf(Without(reqs, i), verdicts) == GateOf(reqs, verdicts)
  {
    if i < |reqs| - 1 {
      WithoutInit(reqs, i);
      GateWithout(reqs[..|reqs| - 1], verdicts, i);
    } else {
      assert Without(reqs, i) == reqs[..|reqs| - 1];
    }
  }

  lemma GateUnknown(reqs: seq<Requirement>, verdicts: Verdicts, i: nat)
    requires i < |reqs| && NothingKnown(reqs[i], verdicts)
    ensures GateOf(Without(reqs, i), verdicts) == GateOf(reqs, verdicts)
  {
    GateWithout(reqs, verdicts, i);
  }

  lemma {:induction false} CountedWithout(reqs: seq<Requirement>, verdicts: Verdicts, i: nat, c: string)
    requires i < |reqs| && !CountsIn(reqs[i], verdicts, c)
    ensures CountedIds(Without(reqs, i), verdicts, c) == CountedIds(reqs, verdicts, c)
  {
    if i < |reqs| - 1 {
      WithoutInit(reqs, i);
      CountedWithout(reqs[..|reqs| - 1], verdicts, i, c);
    } else {
      assert Without(reqs, i) == reqs[..|reqs| - 1];
    }
  }

  lemma {:induction false} WeightNeedsCategory(reqs: seq<Requirement>, verdicts: Verdicts, c: string)
    requires c !in CategoryNames(reqs)
    ensures CategoryWeight(reqs, verdicts, c) == 0.0
  {
    if reqs != [] {
      WeightNeedsCategory(reqs[1..], verdicts, c);
    }
  }

  lemma CategoryWithout(spec: EvaluationSpec, less: EvaluationSpec, verdicts: Verdicts, i: nat, c: string)
    requires i < |spec.requirements| && NothingKnown(spec.requirements[i], verdicts)
    requires less == spec.(requirements := Without(spec.requirements, i))
    ensures Known(less, verdicts, c) <==> Known(spec, verdicts, c)
    ensures Known(spec, verdicts, c) ==> CategoryScoreOf(less, verdicts, c) == CategoryScoreOf(spec, verdicts, c)
  {
    SumDelete(spec.requirements, i, WeightTerm(verdicts, c));
    SumDelete(spec.requirements, i, ValueTerm(verdicts, c));
    CountedWithout(spec.requirements, verdicts, i, c);
  }

  /** What is known decides which categories are averaged, so both specifications average the same. */
  lemma CategoriesWithout(spec: EvaluationSpec, less: EvaluationSpec, verdicts: Verdicts, i: nat)
    requires i < |spec.requirements| && NothingKnown(spec.requirements[i], verdicts)
    requires less == spec.(requirements := Without(spec.requirements, i))
    ensures CategoriesOf(less, verdicts) == CategoriesOf(spec, verdicts)
    ensures BaseOf(less, verdicts) == BaseOf(spec, verdicts)
  {
    forall c
      ensures Known(less, verdicts, c) <==> Known(spec, verdicts, c)
      ensures Known(spec, verdicts, c) ==> CategoryScoreOf(less, verdicts, c) == CategoryScoreOf(spec, verdicts, c)
    {
      CategoryWithout(spec, less, verdicts, i, c);
    }
    SameKnown(spec, less, verdicts, verdicts);
  }

  lemma KnownIsNamed(spec: EvaluationSpec, verdicts: Verdicts, c: string)
    requires Known(spec, verdicts, c)
    ensures c in CategoryNames(spec.requirements)
  {
    if c !in CategoryNames(spec.requirements) {
      WeightNeedsCategory(spec.requirements, verdicts, c);
    }
  }

  /** The same known categories with the same averages: nothing else reaches the base score. */
  lemma SameKnown(a: EvaluationSpec, b: EvaluationSpec, v: Verdicts, w: Verdicts)
    requires a.weights == b.weights
    requires forall c :: Known(a, v, c) <==> Known(b, w, c)
    requires forall c :: Known(a, v, c) ==> CategoryScoreOf(a, v, c) == CategoryScoreOf(b, w, c)
    ensures CategoriesOf(b, w) == CategoriesOf(a, v)
    ensures BaseOf(b, w) == BaseOf(a, v)
  {
    forall c | Known(a, v, c)
      ensures c in CategoryNames(a.requirements) && c in CategoryNames(b.requirements)
    {
      KnownIsNamed(a, v, c);
      KnownIsNamed(b, w, c);
    }
    SameAverages(a, b, v, w);
    forall c
      ensures WeightPart(a, v)(c) == WeightPart(b, w)(c)
      ensures WeightedPart(a, v)(c) == WeightedPart(b, w)(c)
    {
    }
    BaseFromParts(a, b, v, w);
  }

  lemma SameAverages(a: EvaluationSpec, b: EvaluationSpec, v: Verdicts, w: Verdicts)
    requires forall c :: Known(a, v, c) <==> Known(b, w, c)
    requires forall c :: Known(a, v, c) ==> CategoryScoreOf(a, v, c) == CategoryScoreOf(b, w, c)
    requires forall c :: Known(a, v, c) ==> c in CategoryNames(a.requirements) && c in CategoryNames(b.requirements)
    ensures CategoriesOf(b, w) == CategoriesOf(a, v)
  {
    hide *;
    CategoriesContents(a, v);
    CategoriesContents(b, w);
  }

  lemma BaseFromParts(a: EvaluationSpec, b: EvaluationSpec, v: Verdicts, w: Verdicts)
    requires forall c :: WeightPart(a, v)(c) == WeightPart(b, w)(c)
    requires forall c :: WeightedPart(a, v)(c) == WeightedPart(b, w)(c)
    ensures BaseOf(a, v) == BaseOf(b, w)
  {
    hide *;
    forall c
      ensures WeightPart(a, v)(c) != 0.0 || WeightedPart(a, v)(c) != 0.0 ==>
                c in CategoryNames(a.requirements) && c in CategoryNames(b.requirements)
    {
      PartsAreNamed(a, v, c);
      PartsAreNamed(b, w, c);
    }
    SameParts(a, b, WeightPart(a, v), WeightPart(b, w));
    SameParts(a, b, WeightedPart(a, v), WeightedPart(b, w));
    BaseIs(a, v);
    BaseIs(b, w);
  }

  lemma PartsAreNamed(spec: EvaluationSpec, verdicts: Verdicts, c: string)
    ensures WeightPart(spec, verdicts)(c) != 0.0 ==> c in CategoryNames(spec.requirements)
    ensures WeightedPart(spec, verdicts)(c) != 0.0 ==> c in CategoryNames(spec.requirements)
  {
    if Known(spec, verdicts, c) {
      KnownIsNamed(spec, verdicts, c);
    }
  }

  lemma SameParts(a: EvaluationSpec, b: EvaluationSpec, f: string -> real, g: string -> real)
    requires forall c :: f(c) == g(c)
    requires forall c :: f(c) != 0.0 ==> c in CategoryNames(a.requirements) && c in CategoryNames(b.requirements)
    ensures SetSum(CategoryNames(a.requirements), f) == SetSum(CategoryNames(b.requirements), g)
  {
    var all := CategoryNames(a.requirements) + CategoryNames(b.requirements);
    SetSumShrinks(all, CategoryNames(a.requirements), f);
    SetSumShrinks(all, CategoryNames(b.requirements), g);
    SetSumEqual(all, f, g);
  }

  lemma NetWithout(reqs: seq<Requirement>, verdicts: Verdicts, cap: real, i: nat)
    requires i < |reqs| && NothingKnown(reqs[i], verdicts)
    ensures NetOf(Without(reqs, i), verdicts, cap) == NetOf(reqs, verdicts, cap)
  {
    SumDelete(reqs, i, BonusTerm(verdicts));
    SumDelete(reqs, i, PenaltyTerm(verdicts));
  }

  /** An unknown requirement scores exactly as if the job had never asked for it. */
  lemma MissingIsNotNegative(spec: EvaluationSpec, verdicts: Verdicts, i: nat)
    requires i < |spec.requirements| && NothingKnown(spec.requirements[i], verdicts)
    ensures
      var asked := ScoreOf(spec, verdicts);
      var never := ScoreOf(spec.(requirements := Without(spec.requirements, i)), verdicts);
      && never.categories == asked.categories
      && never.baseScore == asked.baseScore
      && never.finalScore == asked.finalScore
      && never.gate == asked.gate
  {
    hide *;
    var less := spec.(requirements := Without(spec.requirements, i));
    CategoriesWithout(spec, less, verdicts, i);
    NetWithout(spec.requirements, verdicts, spec.bonusCap, i);
    GateUnknown(spec.requirements, verdicts, i);
    FinalParts(spec, verdicts);
    FinalParts(less, verdicts);
    FinalClosedForm(spec, verdicts);
    FinalClosedForm(less, verdicts);
  }

  /** A hard requirement nothing is known about costs the gate only when its policy says so. */
  lemma MissingHardRequirement(reqs: seq<Requirement>, verdicts: Verdicts, i: nat)
    requires i < |reqs| && reqs[i].kind == Hard && KindOf(verdicts, reqs[i].reqId) == Unknown
    requires GateOf(Without(reqs, i), verdicts).Passes()
    ensures GateOf(reqs, verdicts).Passes() <==> reqs[i].missingPolicy != AsFailure
  {
    GateMeaning(reqs, verdicts);
    GateMeaning(Without(reqs, i), verdicts);
    forall k | 0 <= k < |reqs| && k != i
      ensures !FailsGate(reqs[k], verdicts)
    {
      assert reqs[k] == Without(reqs, i)[if k < i then k else k - 1];
    }
  }

  // ----- order and scale -----

  lemma PermutedMembers(a: seq<Requirement>, b: seq<Requirement>)
    requires multiset(a) == multiset(b)
    ensures forall req :: req in a <==> req in b
  {
    forall req
      ensures req in a <==> req in b
    {
      assert req in a <==> req in multiset(a);
      assert req in b <==> req in multiset(b);
    }
  }

  lemma CategoryPermuted(spec: EvaluationSpec, other: EvaluationSpec, verdicts: Verdicts, c: string)
    requires multiset(spec.requirements) == multiset(other.requirements) && spec.weights == other.weights
    ensures WeightPart(spec, verdicts)(c) == WeightPart(other, verdicts)(c)
    ensures WeightedPart(spec, verdicts)(c) == WeightedPart(other, verdicts)(c)
  {
    SumPermuted(spec.requirements, other.requirements, WeightTerm(verdicts, c));
    SumPermuted(spec.requirements, other.requirements, ValueTerm(verdicts, c));
  }

  lemma BasePermuted(spec: EvaluationSpec, other: EvaluationSpec, verdicts: Verdicts)
    requires multiset(spec.requirements) == multiset(other.requirements) && spec.weights == other.weights
    ensures BaseOf(spec, verdicts) == BaseOf(other, verdicts)
  {
    forall c
      ensures WeightPart(spec, verdicts)(c) == WeightPart(other, verdicts)(c)
      ensures WeightedPart(spec, verdicts)(c) == WeightedPart(other, verdicts)(c)
    {
      CategoryPermuted(spec, other, verdicts, c);
    }
    BaseFromParts(spec, other, verdicts, verdicts);
  }

  lemma ConfidencePermuted(a: seq<Requirement>, b: seq<Requirement>, verdicts: Verdicts)
    requires multiset(a) == multiset(b)
    ensures ConfidenceOf(a, verdicts) == ConfidenceOf(b, verdicts)
  {
    SumPermuted(a, b, ConfidenceTerm(verdicts));
    SumPermuted(a, b, DecisiveTerm(verdicts));
  }

  lemma NetPermuted(a: seq<Requirement>, b: seq<Requirement>, verdicts: Verdicts, cap: real)
    requires multiset(a) == multiset(b)
    ensures NetOf(a, verdicts, cap) == NetOf(b, verdicts, cap)
  {
    SumPermuted(a, b, BonusTerm(verdicts));
    SumPermuted(a, b, PenaltyTerm(verdicts));
  }

  lemma GatePermuted(a: seq<Requirement>, b: seq<Requirement>, verdicts: Verdicts)
    requires multiset(a) == multiset(b)
    ensures GateOf(a, verdicts).Passes() <==> GateOf(b, verdicts).Passes()
  {
    hide *;
    PermutedMembers(a, b);
    GateMeaning(a, verdicts);
    GateMeaning(b, verdicts);
    assert forall i :: 0 <= i < |a| ==> a[i] in b;
    assert forall i :: 0 <= i < |b| ==> b[i] in a;
  }

  /** The order in which a job lists its requirements changes no number and no gate decision. */
  lemma OrderDoesNotMatter(spec: EvaluationSpec, other: EvaluationSpec, verdicts: Verdicts)
    requires multiset(spec.requirements) == multiset(other.requirements)
    requires spec.weights == other.weights && spec.bonusCap == other.bonusCap
    ensures
      var a, b := ScoreOf(spec, verdicts), ScoreOf(other, verdicts);
      && a.baseScore == b.baseScore && a.finalScore == b.finalScore && a.band == b.band
      && a.confidence == b.confidence && (a.gate.Passes() <==> b.gate.Passes())
  {
    hide *;
    BasePermuted(spec, other, verdicts);
    NetPermuted(spec.requirements, other.requirements, verdicts, spec.bonusCap);
    FinalParts(spec, verdicts);
    FinalParts(other, verdicts);
    FinalClosedForm(spec, verdicts);
    FinalClosedForm(other, verdicts);
    ConfidencePermuted(spec.requirements, other.requirements, verdicts);
    GatePermuted(spec.requirements, other.requirements, verdicts);
  }

  lemma ScaledPercent(k: real, part: real, whole: real, scaledPart: real, scaledWhole: real)
    requires k > 0.0 && scaledPart == Scale(k, part) && scaledWhole == Scale(k, whole)
    ensures Percent(scaledPart, scaledWhole) == Percent(part, whole)
  {
    if whole > 0.0 {
      assert k * whole > 0.0;
      assert 100.0 * (k * part) / (k * whole) == 100.0 * part / whole;
    } else {
      assert k * whole <= 0.0;
    }
  }

  lemma TimesScaled(k: real, weight: real, scaled: real, x: real)
    requires scaled == k * weight
    ensures Times(scaled, x) == k * Times(weight, x)
  {
  }

  lemma ScaledPositive(k: real, weight: real)
    requires k > 0.0
    ensures k * weight > 0.0 <==> weight > 0.0
  {
  }

  lemma PartScaled(spec: EvaluationSpec, scaled: EvaluationSpec, verdicts: Verdicts, k: real, c: string)
    requires k > 0.0 && spec.requirements == scaled.requirements
    requires SpecWeight(scaled, c) == k * SpecWeight(spec, c)
    ensures WeightPart(scaled, verdicts)(c) == Scale(k, WeightPart(spec, verdicts)(c))
    ensures WeightedPart(scaled, verdicts)(c) == Scale(k, WeightedPart(spec, verdicts)(c))
  {
    ScaledPositive(k, SpecWeight(spec, c));
    if Known(spec, verdicts, c) {
      TimesScaled(k, SpecWeight(spec, c), SpecWeight(scaled, c), CategoryScoreOf(spec, verdicts, c).score);
    }
  }

  /** Only the proportions of the category weights matter. */
  lemma WeightScaleDoesNotMatter(spec: EvaluationSpec, scaled: EvaluationSpec, verdicts: Verdicts, k: real)
    requires k > 0.0 && spec.requirements == scaled.requirements
    requires forall c :: SpecWeight(scaled, c) == k * SpecWeight(spec, c)
    ensures BaseOf(scaled, verdicts) == BaseOf(spec, verdicts)
  {
    hide *;
    var names := CategoryNames(spec.requirements);
    forall c
      ensures WeightPart(scaled, verdicts)(c) == Scale(k, WeightPart(spec, verdicts)(c))
      ensures WeightedPart(scaled, verdicts)(c) == Scale(k, WeightedPart(spec, verdicts)(c))
    {
      PartScaled(spec, scaled, verdicts, k, c);
    }
    SetSumScaled(names, WeightPart(spec, verdicts), WeightPart(scaled, verdicts), k);
    SetSumScaled(names, WeightedPart(spec, verdicts), WeightedPart(scaled, verdicts), k);
    ScaledPercent(k, SetSum(names, WeightedPart(spec, verdicts)), SetSum(names, WeightPart(spec, verdicts)),
                  SetSum(names, WeightedPart(scaled, verdicts)), SetSum(names, WeightPart(scaled, verdicts)));
    BaseIs(spec, verdicts);
    BaseIs(scaled, verdicts);
  }

  // ----- what the scorer looks at -----

  /** Verdicts that differ at most in the score of requirements that are not scored. */
  ghost predicate Alike(reqs: seq<Requirement>, a: Verdicts, b: Verdicts) {
    && a.Keys == b.Keys
    && (forall id :: id in a ==>
          && a[id].kind == b[id].kind && a[id].confidence == b[id].confidence
          && a[id].infoStatus == b[id].infoStatus && a[id].source == b[id].source)
    && (forall req :: req in reqs && req.kind == Scored && req.reqId in a ==>
          a[req.reqId].score == b[req.reqId].score)
  }

  lemma {:induction false} GateAlike(reqs: seq<Requirement>, a: Verdicts, b: Verdicts)
    requires Alike(reqs, a, b)
    ensures GateOf(reqs, a) == GateOf(reqs, b)
  {
    if reqs != [] {
      GateAlike(reqs[..|reqs| - 1], a, b);
    }
  }

  lemma {:induction false} CountedAlike(reqs: seq<Requirement>, a: Verdicts, b: Verdicts, c: string)
    requires Alike(reqs, a, b)
    ensures CountedIds(reqs, a, c) == CountedIds(reqs, b, c)
  {
    if reqs != [] {
      CountedAlike(reqs[..|reqs| - 1], a, b, c);
      assert reqs[|reqs| - 1] in reqs;
    }
  }

  lemma CategoryAlike(spec: EvaluationSpec, a: Verdicts, b: Verdicts, c: string)
    requires Alike(spec.requirements, a, b)
    ensures Known(spec, a, c) <==> Known(spec, b, c)
    ensures Known(spec, a, c) ==> CategoryScoreOf(spec, a, c) == CategoryScoreOf(spec, b, c)
  {
    SumEqual(spec.requirements, WeightTerm(a, c), WeightTerm(b, c));
    SumEqual(spec.requirements, ValueTerm(a, c), ValueTerm(b, c));
    CountedAlike(spec.requirements, a, b, c);
  }

  lemma CategoriesAlike(spec: EvaluationSpec, a: Verdicts, b: Verdicts)
    requires Alike(spec.requirements, a, b)
    ensures CategoriesOf(spec, a) == CategoriesOf(spec, b)
    ensures BaseOf(spec, a) == BaseOf(spec, b)
  {
    forall c
      ensures Known(spec, a, c) <==> Known(spec, b, c)
      ensures Known(spec, a, c) ==> CategoryScoreOf(spec, a, c) == CategoryScoreOf(spec, b, c)
    {
      CategoryAlike(spec, a, b, c);
    }
    SameKnown(spec, spec, a, b);
  }

  lemma ExtendedAlike(before: seq<Adjustment>, req: Requirement, a: Verdicts, b: Verdicts, cap: real)
    requires KindOf(a, req.reqId) == KindOf(b, req.reqId)
    ensures Extended(before, req, a, cap) == Extended(before, req, b, cap)
  {
  }

  lemma {:induction false} AdjustmentsAlike(reqs: seq<Requirement>, a: Verdicts, b: Verdicts, cap: real)
    requires Alike(reqs, a, b)
    ensures AdjustmentsOf(reqs, a, cap) == AdjustmentsOf(reqs, b, cap)
  {
    hide Extended;
    if reqs != [] {
      AdjustmentsAlike(reqs[..|reqs| - 1], a, b, cap);
      ExtendedAlike(AdjustmentsOf(reqs[..|reqs| - 1], a, cap), reqs[|reqs| - 1], a, b, cap);
    }
  }

  lemma ConfidenceAlike(reqs: seq<Requirement>, a: Verdicts, b: Verdicts)
    requires Alike(reqs, a, b)
    ensures ConfidenceOf(reqs, a) == ConfidenceOf(reqs, b)
  {
    SumEqual(reqs, ConfidenceTerm(a), ConfidenceTerm(b));
    SumEqual(reqs, DecisiveTerm(a), DecisiveTerm(b));
  }

  lemma DisqualifiedAlike(reqs: seq<Requirement>, a: Verdicts, b: Verdicts)
    requires Alike(reqs, a, b)
    ensures AnyDisqualified(a) <==> AnyDisqualified(b)
  {
  }

  lemma MissingAlike(reqs: seq<Requirement>, a: Verdicts, b: Verdicts)
    requires Alike(reqs, a, b)
    ensures MissingIds(reqs, a) == MissingIds(reqs, b)
  {
    hide Asked;
    forall id
      ensures id in MissingIds(reqs, a) <==> id in MissingIds(reqs, b)
    {
    }
  }

  /** Verdicts alike in this sense are scored alike, down to every field of the result. */
  lemma ScoreAlike(spec: EvaluationSpec, a: Verdicts, b: Verdicts)
    requires Alike(spec.requirements, a, b)
    ensures ScoreOf(spec, a) == ScoreOf(spec, b)
  {
    hide GateOf, CategoriesOf, BaseOf, AdjustmentsOf, ConfidenceOf, AnyDisqualified, FinalOf, BandOf, Round1,
      MissingIds;
    GateAlike(spec.requirements, a, b);
    CategoriesAlike(spec, a, b);
    AdjustmentsAlike(spec.requirements, a, b, spec.bonusCap);
    ConfidenceAlike(spec.requirements, a, b);
    DisqualifiedAlike(spec.requirements, a, b);
    MissingAlike(spec.requirements, a, b);
  }
}
