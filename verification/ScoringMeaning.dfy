/** What verdict kinds, confidences and points are worth to the scorer. */
module ScoringMeaning {
  import opened Wrappers
  import opened Rounding
  import opened Sums
  import opened Spec
  import opened Scoring
  import opened ScoringLaws

  // ----- what a kind is worth -----

  /** One kind is a better answer than another. */
  predicate Better(worse: VerdictKind, better: VerdictKind) {
    || (worse == NotMet && (better == PartiallyMet || better == Met))
    || (worse == PartiallyMet && better == Met)
  }

  function Regraded(verdicts: Verdicts, id: string, kind: VerdictKind): Verdicts
    requires id in verdicts
  {
    verdicts[id := verdicts[id].(kind := kind)]
  }

  /** A verdict given by its kind alone contributes at least a quarter more when the kind is better. */
  lemma BetterKindContributesMore(v: Verdict, kind: VerdictKind)
    requires v.score == None && Better(v.kind, kind) && EffectiveConfidence(v) >= 0.0
    ensures Adjusted(v).Some? && Adjusted(v.(kind := kind)).Some?
    ensures Adjusted(v).value + 0.25 <= Adjusted(v.(kind := kind)).value
  {
    var factor := 0.5 + 0.5 * EffectiveConfidence(v);
    assert factor >= 0.5;
    assert 0.0 * factor + 0.25 <= 0.5 * factor && 0.5 * factor + 0.25 <= 1.0 * factor;
  }

  lemma RegradedContributes(reqs: seq<Requirement>, verdicts: Verdicts, id: string, kind: VerdictKind)
    requires id in verdicts && verdicts[id].score == None && Better(verdicts[id].kind, kind)
    requires EffectiveConfidence(verdicts[id]) >= 0.0
    ensures ContributesNoLess(reqs, verdicts, Regraded(verdicts, id, kind))
  {
    BetterKindContributesMore(verdicts[id], kind);
    hide Adjusted;
  }

  lemma NetMonotone(reqs: seq<Requirement>, low: Verdicts, high: Verdicts, cap: real)
    requires forall req :: req in reqs ==> BonusTerm(low)(req) <= BonusTerm(high)(req)
    requires forall req :: req in reqs ==> PenaltyTerm(low)(req) == PenaltyTerm(high)(req)
    ensures NetOf(reqs, low, cap) <= NetOf(reqs, high, cap)
  {
    SumMonotone(reqs, BonusTerm(low), BonusTerm(high));
    SumEqual(reqs, PenaltyTerm(low), PenaltyTerm(high));
  }

  lemma RegradedNet(reqs: seq<Requirement>, verdicts: Verdicts, id: string, kind: VerdictKind, cap: real)
    requires id in verdicts && Better(verdicts[id].kind, kind)
    requires forall req :: req in reqs && req.reqId == id ==> req.kind != Penalty
    ensures NetOf(reqs, verdicts, cap) <= NetOf(reqs, Regraded(verdicts, id, kind), cap)
  {
    var raised := Regraded(verdicts, id, kind);
    forall req | req in reqs
      ensures BonusTerm(verdicts)(req) <= BonusTerm(raised)(req)
      ensures PenaltyTerm(verdicts)(req) == PenaltyTerm(raised)(req)
    {
    }
    NetMonotone(reqs, verdicts, raised, cap);
  }

  /** A better kind never lowers the final score, unless it is a penalty that is now met. */
  lemma BetterKindNeverLowers(spec: EvaluationSpec, verdicts: Verdicts, id: string, kind: VerdictKind)
    requires forall req :: req in spec.requirements ==> req.weight >= 0.0
    requires forall req :: req in spec.requirements && req.reqId == id ==> req.kind != Penalty
    requires id in verdicts && verdicts[id].score == None && EffectiveConfidence(verdicts[id]) >= 0.0
    requires Better(verdicts[id].kind, kind)
    ensures ScoreOf(spec, verdicts).finalScore <= ScoreOf(spec, Regraded(verdicts, id, kind)).finalScore
  {
    hide *;
    var raised := Regraded(verdicts, id, kind);
    RegradedContributes(spec.requirements, verdicts, id, kind);
    RegradedNet(spec.requirements, verdicts, id, kind, spec.bonusCap);
    BaseFollows(spec, verdicts, raised);
    FinalClosedForm(spec, verdicts);
    FinalClosedForm(spec, raised);
    FinalFollows(BaseOf(spec, verdicts), BaseOf(spec, raised), NetOf(spec.requirements, verdicts, spec.bonusCap),
                 NetOf(spec.requirements, raised, spec.bonusCap));
  }

  /** And it raises what the category adds up to, before rounding, by at least a quarter of the requirement's weight. */
  lemma BetterKindRaisesTotal(reqs: seq<Requirement>, verdicts: Verdicts, i: nat, kind: VerdictKind)
    requires i < |reqs| && reqs[i].kind == Scored && reqs[i].weight > 0.0
    requires forall req :: req in reqs ==> req.weight >= 0.0
    requires
      var id := reqs[i].reqId;
      && id in verdicts && verdicts[id].score == None && EffectiveConfidence(verdicts[id]) >= 0.0
      && Better(verdicts[id].kind, kind)
    ensures
      var raised, c := Regraded(verdicts, reqs[i].reqId, kind), reqs[i].category;
      && CategoryWeight(reqs, raised, c) == CategoryWeight(reqs, verdicts, c)
      && CategoryTotal(reqs, raised, c) >= CategoryTotal(reqs, verdicts, c) + reqs[i].weight / 4.0
  {
    var id, c := reqs[i].reqId, reqs[i].category;
    var raised := Regraded(verdicts, id, kind);
    var low, high := ValueTerm(verdicts, c), ValueTerm(raised, c);
    var rest := reqs[..i] + reqs[i + 1..];
    RegradedContributes(reqs, verdicts, id, kind);
    BetterKindContributesMore(verdicts[id], kind);
    hide Adjusted, Regraded;
    SumEqual(reqs, WeightTerm(verdicts, c), WeightTerm(raised, c));
    forall req | req in reqs
      ensures low(req) <= high(req)
    {
      if CountsIn(req, verdicts, c) {
        ProductMonotone(req.weight, Adjusted(verdicts[req.reqId]).value, Adjusted(raised[req.reqId]).value);
      }
    }
    assert forall req :: req in rest ==> req in reqs;
    SumMonotone(rest, low, high);
    SumDelete(reqs, i, low);
    SumDelete(reqs, i, high);
    assert reqs[i] in reqs;
    RegradedAt(verdicts, id, kind);
    ProductRises(reqs[i].weight, Adjusted(verdicts[id]).value, Adjusted(raised[id]).value);
  }

  lemma RegradedAt(verdicts: Verdicts, id: string, kind: VerdictKind)
    requires id in verdicts
    ensures id in Regraded(verdicts, id, kind) && Regraded(verdicts, id, kind)[id] == verdicts[id].(kind := kind)
  {
  }

  lemma ProductRises(weight: real, x: real, y: real)
    requires weight > 0.0 && x + 0.25 <= y
    ensures Times(weight, x) + weight / 4.0 <= Times(weight, y)
  {
    ProductMonotone(weight, x + 0.25, y);
  }

  /** Rounding to four decimals cannot hide that from a requirement with more than 1/2500 of the category's weight. */
  lemma BetterKindRaisesAverage(spec: EvaluationSpec, verdicts: Verdicts, i: nat, kind: VerdictKind)
    requires i < |spec.requirements| && spec.requirements[i].kind == Scored && spec.requirements[i].weight > 0.0
    requires forall req :: req in spec.requirements ==> req.weight >= 0.0
    requires
      var id := spec.requirements[i].reqId;
      && id in verdicts && verdicts[id].score == None && EffectiveConfidence(verdicts[id]) >= 0.0
      && Better(verdicts[id].kind, kind)
    requires 2500.0 * spec.requirements[i].weight
           > CategoryWeight(spec.requirements, verdicts, spec.requirements[i].category)
    ensures
      var raised, c := Regraded(verdicts, spec.requirements[i].reqId, kind), spec.requirements[i].category;
      Known(spec, verdicts, c) && Known(spec, raised, c)
      && CategoryScoreOf(spec, raised, c).score > CategoryScoreOf(spec, verdicts, c).score
  {
    var reqs, c := spec.requirements, spec.requirements[i].category;
    var raised := Regraded(verdicts, reqs[i].reqId, kind);
    BetterKindRaisesTotal(reqs, verdicts, i, kind);
    BetterKindContributesMore(verdicts[reqs[i].reqId], kind);
    CountedIsKnown(reqs, verdicts, i);
    hide CategoryTotal, CategoryWeight, Regraded, Better, EffectiveConfidence;
    var weight, low, high := CategoryWeight(reqs, verdicts, c), CategoryTotal(reqs, verdicts, c),
      CategoryTotal(reqs, raised, c);
    AverageRises(low, high, weight, reqs[i].weight);
  }

  lemma CountedIsKnown(reqs: seq<Requirement>, verdicts: Verdicts, i: nat)
    requires i < |reqs| && reqs[i].weight > 0.0 && Counts(reqs[i], verdicts)
    requires forall req :: req in reqs ==> req.weight >= 0.0
    ensures CategoryWeight(reqs, verdicts, reqs[i].category) > 0.0
  {
    var w := WeightTerm(verdicts, reqs[i].category);
    hide Counts;
    SumDelete(reqs, i, w);
    SumNonNegative(reqs[..i] + reqs[i + 1..], w);
  }

  lemma AverageRises(low: real, high: real, whole: real, part: real)
    requires whole > 0.0 && 2500.0 * part > whole && high >= low + part / 4.0
    ensures Average(low, whole) < Average(high, whole)
  {
    var x, y := low / whole * 10000.0, high / whole * 10000.0;
    QuotientRises(low, high, whole);
    assert HalfEven(x) < HalfEven(y);
  }

  lemma QuotientRises(low: real, high: real, whole: real)
    requires whole > 0.0 && 10000.0 * (high - low) > whole
    ensures high / whole * 10000.0 > low / whole * 10000.0 + 1.0
  {
    var d := high - low;
    assert high / whole == low / whole + d / whole;
    assert d / whole * whole == d;
    assert (d / whole * 10000.0 - 1.0) * whole > 0.0;
  }

  // ----- everybody alike -----

  /** Every scored requirement with a verdict contributes the same. */
  ghost predicate Uniform(reqs: seq<Requirement>, verdicts: Verdicts, x: real) {
    forall req :: req in reqs && Counts(req, verdicts) ==> Adjusted(verdicts[req.reqId]) == Some(x)
  }

  lemma UniformAverage(spec: EvaluationSpec, verdicts: Verdicts, x: real, c: string)
    requires Uniform(spec.requirements, verdicts, x) && Known(spec, verdicts, c)
    ensures CategoryScoreOf(spec, verdicts, c).score == Round4(x)
  {
    var reqs := spec.requirements;
    var w, v := WeightTerm(verdicts, c), ValueTerm(verdicts, c);
    forall req | req in reqs
      ensures v(req) == Scale(x, w(req))
    {
      hide Adjusted;
    }
    SumScaled(reqs, w, v, x);
    DivideBack(x, Sum(reqs, w));
  }

  lemma DivideBack(x: real, w: real)
    requires w > 0.0
    ensures Scale(x, w) / w == x
  {
  }

  lemma UniformPart(spec: EvaluationSpec, verdicts: Verdicts, x: real, c: string)
    requires Uniform(spec.requirements, verdicts, x) && Round4(x) == x
    ensures WeightedPart(spec, verdicts)(c) == Scale(x, WeightPart(spec, verdicts)(c))
  {
    if Known(spec, verdicts, c) {
      UniformAverage(spec, verdicts, x, c);
    }
    hide Known, CategoryScoreOf, Uniform, Round4;
  }

  /** When all known requirements contribute the same, that is the base score, in percent. */
  lemma UniformBase(spec: EvaluationSpec, verdicts: Verdicts, x: real)
    requires Uniform(spec.requirements, verdicts, x) && Round4(x) == x
    requires SetSum(CategoryNames(spec.requirements), WeightPart(spec, verdicts)) > 0.0
    ensures BaseOf(spec, verdicts) == 100.0 * x
  {
    var names := CategoryNames(spec.requirements);
    hide Uniform, Round4, CategoryNames, WeightPart, WeightedPart, Scale;
    forall c
      ensures WeightedPart(spec, verdicts)(c) == Scale(x, WeightPart(spec, verdicts)(c))
    {
      UniformPart(spec, verdicts, x, c);
    }
    SetSumScaled(names, WeightPart(spec, verdicts), WeightedPart(spec, verdicts), x);
    BaseIs(spec, verdicts);
    PercentOfScaled(x, SetSum(names, WeightPart(spec, verdicts)));
  }

  lemma PercentOfScaled(x: real, whole: real)
    requires whole > 0.0
    ensures Percent(Scale(x, whole), whole) == 100.0 * x
  {
    assert 100.0 * (x * whole) / whole == 100.0 * x;
  }

  /** Every scored requirement has a verdict of the kind, given by kind alone and by a judge who is certain. */
  ghost predicate Unanimous(reqs: seq<Requirement>, verdicts: Verdicts, kind: VerdictKind) {
    forall req :: req in reqs && req.kind == Scored && req.reqId in verdicts ==>
      var v := verdicts[req.reqId];
      v.kind == kind && v.score == None && (v.source == Some(ByRule) || v.confidence == Some(1.0))
  }

  /** There is a scored requirement with weight, in a category with weight; and nothing weighs less than nothing. */
  ghost predicate Weighty(spec: EvaluationSpec, verdicts: Verdicts, i: nat) {
    && i < |spec.requirements|
    && spec.requirements[i].kind == Scored && spec.requirements[i].reqId in verdicts
    && spec.requirements[i].weight > 0.0 && SpecWeight(spec, spec.requirements[i].category) > 0.0
    && forall req :: req in spec.requirements ==> req.weight >= 0.0
  }

  lemma WholeIsPositive(spec: EvaluationSpec, verdicts: Verdicts, i: nat)
    requires Weighty(spec, verdicts, i) && Counts(spec.requirements[i], verdicts)
    ensures SetSum(CategoryNames(spec.requirements), WeightPart(spec, verdicts)) > 0.0
  {
    var reqs, c := spec.requirements, spec.requirements[i].category;
    var part := WeightPart(spec, verdicts);
    var names := CategoryNames(reqs);
    CountedIsKnown(reqs, verdicts, i);
    hide Counts;
    KnownIsNamed(spec, verdicts, c);
    assert part(c) > 0.0 && forall x :: part(x) >= 0.0;
    hide WeightPart, CategoryNames;
    SetSumPick(names, c, part);
    SetSumNonNegative(names - {c}, part);
  }

  lemma KindWorth(v: Verdict)
    requires v.score == None && (v.source == Some(ByRule) || v.confidence == Some(1.0))
    ensures v.kind == Met ==> Adjusted(v) == Some(1.0)
    ensures v.kind == PartiallyMet ==> Adjusted(v) == Some(0.5)
    ensures v.kind == NotMet || v.kind == Disqualified ==> Adjusted(v) == Some(0.0)
    ensures v.kind == Unknown ==> Adjusted(v) == None
  {
  }

  /** All met is a base score of 100, all partially met of 50, all not met of 0. */
  lemma UnanimousBase(spec: EvaluationSpec, verdicts: Verdicts, kind: VerdictKind, i: nat)
    requires Unanimous(spec.requirements, verdicts, kind) && Weighty(spec, verdicts, i)
    requires kind == Met || kind == PartiallyMet || kind == NotMet
    ensures BaseOf(spec, verdicts) == if kind == Met then 100.0 else if kind == PartiallyMet then 50.0 else 0.0
  {
    var x := if kind == Met then 1.0 else if kind == PartiallyMet then 0.5 else 0.0;
    forall req | req in spec.requirements && req.kind == Scored && req.reqId in verdicts
      ensures Adjusted(verdicts[req.reqId]) == Some(x)
    {
      KindWorth(verdicts[req.reqId]);
    }
    assert spec.requirements[i] in spec.requirements;
    hide Adjusted;
    WholeIsPositive(spec, verdicts, i);
    RoundExact(x, if kind == Met then 10000 else if kind == PartiallyMet then 5000 else 0, 10000.0);
    UniformBase(spec, verdicts, x);
  }

  // ----- confidence -----

  /** Certainty counts in full, no confidence at all counts half, and in between the pull is even. */
  lemma DampedMeaning(raw: real, a: real, b: real)
    ensures Damped(raw, 1.0) == raw && Damped(raw, 0.0) == raw / 2.0
    ensures Damped(raw, (a + b) / 2.0) == (Damped(raw, a) + Damped(raw, b)) / 2.0
  {
    assert raw * (0.5 + 0.5 * ((a + b) / 2.0)) == raw / 2.0 + raw * a / 4.0 + raw * b / 4.0;
    assert raw * (0.5 + 0.5 * a) == raw / 2.0 + raw * a / 2.0;
    assert raw * (0.5 + 0.5 * b) == raw / 2.0 + raw * b / 2.0;
  }

  /** A graded score overrides the kind; a rule's score is not damped, anybody else's is by the confidence. */
  lemma AdjustedMeaning(v: Verdict, score: real)
    requires v.score == Some(score)
    ensures v.source == Some(ByRule) ==> Adjusted(v) == Some(score)
    ensures v.source != Some(ByRule) && v.confidence.Some? ==> Adjusted(v) == Some(Damped(score, v.confidence.value))
    ensures v.source != Some(ByRule) && v.confidence == None ==> Adjusted(v) == Some(Damped(score, 0.7))
  {
    hide Damped;
  }

  // ----- means -----

  /** The only level around which the weighted values balance. */
  lemma Balances(v: real, w: real, off: real)
    requires w > 0.0 && off == v - Scale(v / w, w)
    ensures off == 0.0
  {
  }

  /** How far the confidence of a hard or scored requirement's verdict is off a level. */
  function ConfidenceOff(verdicts: Verdicts, level: real): Requirement -> real {
    (req: Requirement) =>
      if (req.kind == Hard || req.kind == Scored) && req.reqId in verdicts
      then EffectiveConfidence(verdicts[req.reqId]) - level else 0.0
  }

  /** The confidence of a result is the rounded mean over the hard and scored requirements with a verdict. */
  lemma ConfidenceIsMean(reqs: seq<Requirement>, verdicts: Verdicts) returns (mean: real)
    ensures ConfidenceOf(reqs, verdicts) ==
            if exists req :: req in reqs && (req.kind == Hard || req.kind == Scored) && req.reqId in verdicts
            then Some(Round2(mean)) else None
    ensures Sum(reqs, ConfidenceOff(verdicts, mean)) == 0.0
  {
    var d, t := DecisiveTerm(verdicts), ConfidenceTerm(verdicts);
    if req :| req in reqs && (req.kind == Hard || req.kind == Scored) && req.reqId in verdicts {
      var i :| 0 <= i < |reqs| && reqs[i] == req;
      SumDelete(reqs, i, d);
      SumNonNegative(reqs[..i] + reqs[i + 1..], d);
      mean := Sum(reqs, t) / Sum(reqs, d);
      SumOff(reqs, d, t, ConfidenceOff(verdicts, mean), mean);
      Balances(Sum(reqs, t), Sum(reqs, d), Sum(reqs, ConfidenceOff(verdicts, mean)));
    } else {
      mean := 0.0;
      SumZero(reqs, d);
      SumZero(reqs, ConfidenceOff(verdicts, mean));
    }
  }

  /** How far a scored requirement's contribution is off a level, by its weight. */
  function ContributionOff(verdicts: Verdicts, c: string, level: real): Requirement -> real {
    (req: Requirement) =>
      if req.kind == Scored && req.category == c && req.reqId in verdicts && Adjusted(verdicts[req.reqId]).Some?
      then req.weight * (Adjusted(verdicts[req.reqId]).value - level) else 0.0
  }

  lemma Apart(w: real, x: real, level: real)
    ensures w * (x - level) == Times(w, x) - Scale(level, w)
  {
  }

  lemma TermOff(req: Requirement, verdicts: Verdicts, c: string, level: real)
    ensures ContributionOff(verdicts, c, level)(req)
         == ValueTerm(verdicts, c)(req) - Scale(level, WeightTerm(verdicts, c)(req))
  {
    hide Adjusted;
    if CountsIn(req, verdicts, c) {
      Apart(req.weight, Adjusted(verdicts[req.reqId]).value, level);
    } else {
      assert Scale(level, 0.0) == 0.0;
    }
  }

  lemma TermsBalance(reqs: seq<Requirement>, verdicts: Verdicts, c: string)
    requires CategoryWeight(reqs, verdicts, c) > 0.0
    ensures
      var mean := CategoryTotal(reqs, verdicts, c) / CategoryWeight(reqs, verdicts, c);
      Sum(reqs, ContributionOff(verdicts, c, mean)) == 0.0
  {
    var w, v := WeightTerm(verdicts, c), ValueTerm(verdicts, c);
    var mean := Sum(reqs, v) / Sum(reqs, w);
    var off := ContributionOff(verdicts, c, mean);
    forall req | req in reqs
      ensures off(req) == v(req) - Scale(mean, w(req))
    {
      TermOff(req, verdicts, c, mean);
    }
    hide WeightTerm, ValueTerm, ContributionOff;
    SumOff(reqs, w, v, off, mean);
    Balances(Sum(reqs, v), Sum(reqs, w), Sum(reqs, off));
  }

  /** A category's score is the rounded weighted mean of what its scored requirements contribute. */
  lemma CategoryIsMean(spec: EvaluationSpec, verdicts: Verdicts, c: string) returns (mean: real)
    requires c in CategoriesOf(spec, verdicts)
    ensures
      var category := CategoriesOf(spec, verdicts)[c];
      category.score == Round4(mean) && category.weight == if c in spec.weights then spec.weights[c] else 0.0
    ensures Sum(spec.requirements, ContributionOff(verdicts, c, mean)) == 0.0
  {
    CategoriesContents(spec, verdicts);
    hide CategoriesOf, CategoryNames, ContributionOff, CategoryTotal, CategoryWeight;
    mean := CategoryTotal(spec.requirements, verdicts, c) / CategoryWeight(spec.requirements, verdicts, c);
    TermsBalance(spec.requirements, verdicts, c);
  }

  /** How far a category is off a level, by what it weighs in the job. */
  function CategoryOff(categories: map<string, CategoryScore>, level: real): string -> real {
    (c: string) =>
      if c in categories && categories[c].weight > 0.0
      then categories[c].weight * (categories[c].score - level) else 0.0
  }

  lemma OffPart(spec: EvaluationSpec, verdicts: Verdicts, level: real, c: string)
    requires c in CategoryNames(spec.requirements)
    ensures CategoryOff(CategoriesOf(spec, verdicts), level)(c)
         == WeightedPart(spec, verdicts)(c) - Scale(level, WeightPart(spec, verdicts)(c))
    ensures WeightPart(spec, verdicts)(c) > 0.0 <==>
              c in CategoriesOf(spec, verdicts) && CategoriesOf(spec, verdicts)[c].weight > 0.0
    ensures WeightPart(spec, verdicts)(c) >= 0.0
  {
    CategoriesContents(spec, verdicts);
    hide CategoriesOf, CategoryNames, Known;
    if Known(spec, verdicts, c) && SpecWeight(spec, c) > 0.0 {
      Apart(SpecWeight(spec, c), CategoryScoreOf(spec, verdicts, c).score, level);
    } else {
      assert Scale(level, 0.0) == 0.0;
    }
  }

  /** Parts that are not negative add up to nothing exactly when there is none. */
  lemma NoParts(names: set<string>, w: string -> real)
    requires forall c :: c in names ==> w(c) >= 0.0
    ensures SetSum(names, w) >= 0.0
    ensures SetSum(names, w) == 0.0 <==> forall c :: c in names ==> w(c) == 0.0
  {
    SetSumNonNegative(names, w);
    if c :| c in names && w(c) > 0.0 {
      SetSumPick(names, c, w);
      SetSumNonNegative(names - {c}, w);
    } else {
      SetSumShrinks(names, {}, w);
    }
  }

  /** The base score is the weighted mean of the category scores, in percent, and 0 when there is none. */
  lemma BaseIsMean(spec: EvaluationSpec, verdicts: Verdicts) returns (mean: real)
    ensures BaseOf(spec, verdicts) == 100.0 * mean
    ensures SetSum(CategoryNames(spec.requirements), CategoryOff(CategoriesOf(spec, verdicts), mean)) == 0.0
    ensures (forall c :: c in CategoriesOf(spec, verdicts) ==>
               CategoriesOf(spec, verdicts)[c].weight <= 0.0) ==> mean == 0.0
  {
    var names, categories := CategoryNames(spec.requirements), CategoriesOf(spec, verdicts);
    var w, v := WeightPart(spec, verdicts), WeightedPart(spec, verdicts);
    var whole := SetSum(names, w);
    BaseIs(spec, verdicts);
    hide BaseOf, CategoriesOf, CategoryNames, WeightPart, WeightedPart, CategoryOff, Scale;
    mean := if whole <= 0.0 then 0.0 else SetSum(names, v) / whole;
    var off := CategoryOff(categories, mean);
    forall c | c in names
      ensures off(c) == v(c) - Scale(mean, w(c)) && w(c) >= 0.0
      ensures w(c) > 0.0 <==> c in categories && categories[c].weight > 0.0
    {
      OffPart(spec, verdicts, mean, c);
    }
    NoParts(names, w);
    if whole > 0.0 {
      SetSumOff(names, w, v, off, mean);
      Balances(SetSum(names, v), whole, SetSum(names, off));
      InPercent(SetSum(names, v), whole);
    } else {
      NothingOff(spec, verdicts, names);
    }
  }

  lemma InPercent(part: real, whole: real)
    requires whole > 0.0
    ensures Percent(part, whole) == 100.0 * (part / whole)
  {
  }

  lemma NothingOff(spec: EvaluationSpec, verdicts: Verdicts, names: set<string>)
    requires names == CategoryNames(spec.requirements)
    requires forall c :: c in names ==> WeightPart(spec, verdicts)(c) == 0.0
    ensures SetSum(names, CategoryOff(CategoriesOf(spec, verdicts), 0.0)) == 0.0
  {
    var off := CategoryOff(CategoriesOf(spec, verdicts), 0.0);
    forall c | c in names
      ensures off(c) == 0.0
    {
      OffPart(spec, verdicts, 0.0, c);
    }
    SetSumShrinks(names, {}, off);
  }

  // ----- gate and review -----

  /** Only hard requirements and disqualifiers are gates. */
  lemma OnlyGatesFail(req: Requirement, verdicts: Verdicts)
    requires FailsGate(req, verdicts)
    ensures req.kind == Hard || req.kind == Disqualifier
  {
  }

  lemma {:induction false} UnverifiedMeaning(reqs: seq<Requirement>, verdicts: Verdicts)
    ensures UnverifiedIds(reqs, verdicts) != [] <==>
              exists i :: 0 <= i < |reqs| && reqs[i].kind == Hard && !FailsGate(reqs[i], verdicts)
                && (KindOf(verdicts, reqs[i].reqId) == Unknown
                    || (reqs[i].reqId in verdicts && verdicts[reqs[i].reqId].infoStatus == Some(Inferred)))
  {
    hide FailsGate, KindOf;
    if reqs != [] {
      var n := |reqs| - 1;
      UnverifiedMeaning(reqs[..n], verdicts);
      assert forall i :: 0 <= i < n ==> reqs[..n][i] == reqs[i];
      assert Unverified(reqs[n], verdicts) ==> UnverifiedIds(reqs, verdicts) != [];
    }
  }

  /**
   A person has to look when the result is held with a confidence below 0.6, when a hard requirement got by
   without being shown, or when a verdict is `disqualified`.
   */
  lemma ReviewMeaning(spec: EvaluationSpec, verdicts: Verdicts)
    ensures
      var s := ScoreOf(spec, verdicts);
      && (LowConfidence in s.reviewReasons <==> s.confidence.Some? && s.confidence.value < 0.6)
      && (HardRequirementUnverified in s.reviewReasons <==> UnverifiedIds(spec.requirements, verdicts) != [])
      && (DisqualifierTriggered in s.reviewReasons
          <==> exists id :: id in verdicts && verdicts[id].kind == Disqualified)
  {
    hide FailedIds, UnverifiedIds, CategoriesOf, BaseOf, AdjustmentsOf, ConfidenceOf, FinalOf, BandOf, MissingIds;
  }

  /** The bands follow the final score: no lower with a higher one, with floors at 80, 65 and 50. */
  function Height(band: Band): int {
    match band
    case Top => 3
    case Strong => 2
    case Possible => 1
    case Weak => 0
  }

  lemma BandMeaning(spec: EvaluationSpec, verdicts: Verdicts, other: EvaluationSpec, others: Verdicts)
    ensures
      var a, b := ScoreOf(spec, verdicts), ScoreOf(other, others);
      && (a.finalScore <= b.finalScore ==> Height(a.band) <= Height(b.band))
      && (a.band == Top <==> a.finalScore >= 80.0)
      && (Height(a.band) >= Height(Strong) <==> a.finalScore >= 65.0)
      && (Height(a.band) >= Height(Possible) <==> a.finalScore >= 50.0)
  {
    hide ScoreOf, FinalOf, BaseOf, AdjustmentsOf, Round1, GateOf, CategoriesOf, ConfidenceOf;
    FinalParts(spec, verdicts);
    FinalParts(other, others);
  }

  /** The final score is the exact one in tenths, to the nearest and ties to the even, kept between 0 and 100. */
  lemma FinalIsRounded(spec: EvaluationSpec, verdicts: Verdicts) returns (tenths: int)
    ensures
      var exact := 10.0 * (BaseOf(spec, verdicts) + NetOf(spec.requirements, verdicts, spec.bonusCap));
      && tenths as real - 0.5 <= exact <= tenths as real + 0.5
      && (exact == tenths as real - 0.5 || exact == tenths as real + 0.5 ==> tenths % 2 == 0)
    ensures ScoreOf(spec, verdicts).finalScore ==
            if tenths <= 0 then 0.0 else if tenths >= 1000 then 100.0 else tenths as real / 10.0
  {
    var exact := BaseOf(spec, verdicts) + NetOf(spec.requirements, verdicts, spec.bonusCap);
    FinalClosedForm(spec, verdicts);
    hide ScoreOf, BaseOf, NetOf;
    tenths := HalfEven(exact * 10.0);
    RoundMeaning(exact, 10.0, tenths);
  }

  /** Information is missing about exactly the requirements of the job whose verdict is `unknown`. */
  lemma MissingMeaning(spec: EvaluationSpec, verdicts: Verdicts, i: nat)
    requires i < |spec.requirements|
    ensures
      var id := spec.requirements[i].reqId;
      id in ScoreOf(spec, verdicts).missing <==> id in verdicts && verdicts[id].kind == Unknown
    ensures ScoreOf(spec, verdicts).missing <= verdicts.Keys
    ensures forall id :: id in ScoreOf(spec, verdicts).missing ==> Asked(spec.requirements, id)
  {
    hide FailedIds, UnverifiedIds, CategoriesOf, BaseOf, AdjustmentsOf, ConfidenceOf, FinalOf, BandOf;
  }

  // ----- points -----

  /** A penalty that turns out to be met costs exactly its points, five if the job names none. */
  lemma MetPenaltyCosts(reqs: seq<Requirement>, verdicts: Verdicts, i: nat, cap: real)
    requires UniqueIds(reqs) && i < |reqs| && reqs[i].kind == Penalty
    requires reqs[i].reqId in verdicts && verdicts[reqs[i].reqId].kind != Met
    ensures
      var stated := if reqs[i].deterministic.Some? then reqs[i].deterministic.value.penaltyPoints else None;
      NetOf(reqs, Regraded(verdicts, reqs[i].reqId, Met), cap)
      == NetOf(reqs, verdicts, cap) - if stated.Some? then stated.value else 5.0
  {
    var id := reqs[i].reqId;
    var met := Regraded(verdicts, id, Met);
    var rest := reqs[..i] + reqs[i + 1..];
    forall req | req in rest
      ensures req.reqId != id
    {
      var k :| 0 <= k < |rest| && rest[k] == req;
      assert rest[k] == reqs[if k < i then k else k + 1];
    }
    SumDelete(reqs, i, PenaltyTerm(verdicts));
    SumDelete(reqs, i, PenaltyTerm(met));
    SumEqual(rest, PenaltyTerm(verdicts), PenaltyTerm(met));
    forall req | req in reqs
      ensures BonusTerm(verdicts)(req) == BonusTerm(met)(req)
    {
      if req.reqId == id {
        assert req == reqs[i] || req in rest;
      }
    }
    SumEqual(reqs, BonusTerm(verdicts), BonusTerm(met));
  }

  /** A bonus is worth its points, five if the job names none, when met, half when partially met. */
  lemma BonusWorth(req: Requirement, verdicts: Verdicts)
    requires req.kind == Bonus && req.reqId in verdicts
    ensures
      var points := if req.bonusPoints.Some? then req.bonusPoints.value else 5.0;
      var kind := verdicts[req.reqId].kind;
      BonusTerm(verdicts)(req) ==
      if kind == Met then Max(0.0, points) else if kind == PartiallyMet then Max(0.0, points / 2.0) else 0.0
  {
  }

  ghost predicate TakesPoints(req: Requirement, verdicts: Verdicts, a: Adjustment) {
    && req.kind == Penalty && req.reqId == a.reqId && a.kind == SubtractPenalty
    && req.reqId in verdicts && verdicts[req.reqId].kind == Met
    && a.points == if req.deterministic.Some? && req.deterministic.value.penaltyPoints.Some?
                   then req.deterministic.value.penaltyPoints.value else 5.0
  }

  ghost predicate GivesPoints(req: Requirement, verdicts: Verdicts, a: Adjustment) {
    && req.kind == Bonus && req.reqId == a.reqId && a.kind == AddBonus
    && 0.0 < a.points <= BonusTerm(verdicts)(req)
  }

  ghost predicate SomeTakes(reqs: seq<Requirement>, verdicts: Verdicts, a: Adjustment) {
    exists i :: 0 <= i < |reqs| && TakesPoints(reqs[i], verdicts, a)
  }

  ghost predicate SomeGives(reqs: seq<Requirement>, verdicts: Verdicts, a: Adjustment) {
    exists i :: 0 <= i < |reqs| && GivesPoints(reqs[i], verdicts, a)
  }

  lemma SomeOrLast(reqs: seq<Requirement>, verdicts: Verdicts, a: Adjustment)
    requires reqs != []
    ensures
      var init, last := reqs[..|reqs| - 1], reqs[|reqs| - 1];
      && (SomeTakes(reqs, verdicts, a) <==> SomeTakes(init, verdicts, a) || TakesPoints(last, verdicts, a))
      && (SomeGives(reqs, verdicts, a) <==> SomeGives(init, verdicts, a) || GivesPoints(last, verdicts, a))
  {
    hide TakesPoints, GivesPoints;
    var init := reqs[..|reqs| - 1];
    assert forall i :: 0 <= i < |init| ==> init[i] == reqs[i];
    if SomeTakes(init, verdicts, a) {
      var i :| 0 <= i < |init| && TakesPoints(init[i], verdicts, a);
      assert TakesPoints(reqs[i], verdicts, a);
    }
    if SomeGives(init, verdicts, a) {
      var i :| 0 <= i < |init| && GivesPoints(init[i], verdicts, a);
      assert GivesPoints(reqs[i], verdicts, a);
    }
  }

  /** Every met penalty is listed with its points, and whatever else is listed is a bonus within its worth. */
  lemma {:induction false} AdjustmentsMeaning(reqs: seq<Requirement>, verdicts: Verdicts, cap: real, a: Adjustment)
    ensures a.kind == SubtractPenalty ==>
              (a in AdjustmentsOf(reqs, verdicts, cap) <==> SomeTakes(reqs, verdicts, a))
    ensures a.kind == AddBonus && a in AdjustmentsOf(reqs, verdicts, cap) ==> SomeGives(reqs, verdicts, a)
  {
    if reqs != [] {
      var n := |reqs| - 1;
      AdjustmentsMeaning(reqs[..n], verdicts, cap, a);
      var remaining := LastAdjustment(reqs, verdicts, cap, a);
      OneMeaning(reqs[n], verdicts, remaining, a);
      SomeOrLast(reqs, verdicts, a);
      hide *;
    }
  }

  lemma LastAdjustment(reqs: seq<Requirement>, verdicts: Verdicts, cap: real, a: Adjustment) returns (remaining: real)
    requires reqs != []
    ensures
      var init, last := reqs[..|reqs| - 1], reqs[|reqs| - 1];
      a in AdjustmentsOf(reqs, verdicts, cap) <==>
        a in AdjustmentsOf(init, verdicts, cap) || a in AdjustmentFor(last, verdicts, remaining)
  {
    hide AdjustmentFor;
    remaining := Max(0.0, cap - Awarded(AdjustmentsOf(reqs[..|reqs| - 1], verdicts, cap)));
  }

  lemma OneMeaning(req: Requirement, verdicts: Verdicts, remaining: real, a: Adjustment)
    ensures a.kind == SubtractPenalty ==>
              (a in AdjustmentFor(req, verdicts, remaining) <==> TakesPoints(req, verdicts, a))
    ensures a.kind == AddBonus && a in AdjustmentFor(req, verdicts, remaining) ==> GivesPoints(req, verdicts, a)
  {
  }
}
