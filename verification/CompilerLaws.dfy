/** What compilation guarantees: nothing is lost, ids are unique, and compiled rules never raise. */
module CompilerLaws {
  import opened Wrappers
  import opened Spec
  import opened Compiler
  import P = Predicates
  import L = PredicateLaws
  import A = Anchors
  import PM = PredicateMeaning
  import D = Deterministic
  import Laws = PipelineLaws

  // ----- one draft -----

  lemma {:induction false} AnchorsInRange(anchors: seq<real>)
    ensures BadAnchor(anchors) == None <==> forall i :: 0 <= i < |anchors| ==> 0.0 <= anchors[i] <= 1.0
  {
    if anchors != [] {
      AnchorsInRange(anchors[1..]);
      assert forall i :: 0 <= i < |anchors| - 1 ==> anchors[1..][i] == anchors[i + 1];
    }
  }

  /** The requirement a draft asked for, with everything a run needs of it. */
  ghost predicate Faithful(draft: Draft, req: Requirement) {
    && req.reqId == draft.reqId && req.category == draft.category && req.kind == draft.kind
    && req.missingPolicy == draft.missingPolicy && req.bonusPoints == draft.bonusPoints
    && (req.evaluator == draft.evaluator || req.evaluator == Semantic)
    && (req.evaluator != Semantic <==> req.deterministic.Some?)
    && (req.evaluator != Deterministic <==> req.semantic.Some?)
    && (req.deterministic.Some? ==>
          && PredicateOf(draft) == Some(req.deterministic.value.rule)
          && req.deterministic.value.borderlineTolerance == draft.borderlineTolerance
          && req.deterministic.value.penaltyPoints == draft.penaltyPoints)
    && (req.semantic.Some? ==>
          req.semantic.value.anchors == if |draft.anchors| >= 2 then draft.anchors else [])
    && Sturdy(req)
  }

  /** Its rule raises on no profile, and its ladder, if any, has at least two rungs within [0, 1]. */
  ghost predicate Sturdy(req: Requirement) {
    && (req.deterministic.Some? ==> L.Fault(req.deterministic.value.rule) == None)
    && (req.semantic.Some? ==> |req.semantic.value.anchors| != 1)
    && (forall r :: r in A.Rungs(req) ==> 0.0 <= r <= 1.0)
    && req.weight == 1.0
  }

  lemma CheckedRuleIsValid(text: P.Text, draft: Draft)
    ensures CheckedRule(text, draft).Some? ==> L.Fault(CheckedRule(text, draft).value) == None
    ensures CheckedRule(text, draft).Some? <==>
              draft.evaluator != Semantic && PredicateOf(draft).Some? && L.Fault(PredicateOf(draft).value) == None
    ensures CheckedRule(text, draft) == None && draft.evaluator != Semantic <==> DowngradeWarnings(text, draft) != []
  {
    hide PredicateOf, P.Evaluate, L.Fault;
    if PredicateOf(draft).Some? {
      L.EvaluateReports(text, PredicateOf(draft).value, L.EMPTY_PROFILE);
    }
  }

  /** A draft that converts is never dropped, only downgraded, and a downgrade is always reported. */
  lemma ConvertIsFaithful(text: P.Text, draft: Draft)
    requires Convert(text, draft).Ok?
    ensures
      var (req, warnings) := Convert(text, draft).value;
      && Faithful(draft, req)
      && (req.evaluator != draft.evaluator ==>
            exists w :: w in warnings && (w == NoConditions(draft.reqId) ||
                                          (w.InvalidPredicate? && w.reqId == draft.reqId)))
  {
    CheckedRuleIsValid(text, draft);
    AnchorsInRange(draft.anchors);
    var rule := CheckedRule(text, draft);
    var (req, warnings) := Convert(text, draft).value;
    if rule == None && draft.evaluator != Semantic {
      var w := DowngradeWarnings(text, draft)[0];
      assert w == warnings[0];
    }
  }

  // ----- what a compiled rule asks -----

  /** A condition that can be asked: the number if one is given, else the list, else the text. */
  ghost predicate Asks(c: Condition, leaf: P.Predicate) {
    && leaf.Leaf? && leaf.field == c.field && leaf.op == c.op
    && (c.op == P.Exists
        || (c.number.Some? && leaf.value == P.JNum(c.number.value))
        || (c.number == None && c.list.Some? && leaf.value == P.JList(Strings(c.list.value)))
        || (c.number == None && c.list == None && c.text.Some? && leaf.value == P.JStr(c.text.value)))
  }

  lemma LeafAsks(c: Condition)
    ensures Usable(c) ==> Asks(c, LeafFor(c))
    ensures !Usable(c) ==> forall leaf :: !Asks(c, leaf)
  {
  }

  /** Every leaf of a rule asks one of its conditions, and every condition that can be asked has its leaf. */
  lemma {:induction false} LeavesMeaning(conditions: seq<Condition>)
    ensures forall leaf :: leaf in Leaves(conditions) ==> exists i :: 0 <= i < |conditions| && Asks(conditions[i], leaf)
    ensures forall i :: 0 <= i < |conditions| && Usable(conditions[i]) ==> LeafFor(conditions[i]) in Leaves(conditions)
  {
    if conditions != [] {
      var n := |conditions| - 1;
      LeavesMeaning(conditions[..n]);
      LeafAsks(conditions[n]);
      hide Asks, LeafFor;
      forall leaf | leaf in Leaves(conditions)
        ensures exists i :: 0 <= i < |conditions| && Asks(conditions[i], leaf)
      {
        if leaf in Leaves(conditions[..n]) {
          var i :| 0 <= i < n && Asks(conditions[..n][i], leaf);
          assert Asks(conditions[i], leaf);
        }
      }
      forall i | 0 <= i < |conditions| && Usable(conditions[i])
        ensures LeafFor(conditions[i]) in Leaves(conditions)
      {
        assert i < n ==> conditions[..n][i] == conditions[i];
      }
    }
  }

  /** A compiled rule passes when all, or any, of its leaves pass, as the draft combines them. */
  lemma RuleMeaning(text: P.Text, draft: Draft, profile: P.Profile)
    requires PredicateOf(draft).Some? && L.Fault(PredicateOf(draft).value) == None
    ensures
      var leaves, passes := Leaves(draft.conditions), P.Evaluate(text, PredicateOf(draft).value, profile) == Ok(P.Pass);
      && leaves != []
      && (draft.combine == CombineAll ==>
            (passes <==> forall leaf :: leaf in leaves ==> P.Evaluate(text, leaf, profile) == Ok(P.Pass)))
      && (draft.combine == CombineAny ==>
            (passes <==> exists leaf :: leaf in leaves && P.Evaluate(text, leaf, profile) == Ok(P.Pass)))
  {
    var leaves := Leaves(draft.conditions);
    if |leaves| == 1 {
      hide P.Evaluate, Leaves;
      assert forall leaf :: leaf in leaves <==> leaf == leaves[0];
    } else if draft.combine == CombineAll {
      PM.AllMeaning(text, leaves, profile);
      hide P.Evaluate, Leaves;
      assert forall i :: 0 <= i < |leaves| ==> leaves[i] in leaves;
    } else {
      PM.AnyMeaning(text, leaves, profile);
      hide P.Evaluate, Leaves;
      assert forall i :: 0 <= i < |leaves| ==> leaves[i] in leaves;
    }
  }

  /** The template's weights are kept if it has any; otherwise the documented ones apply. */
  lemma WeightsMeaning(text: P.Text, template: Option<EvaluationSpec>, drafts: seq<Draft>)
    requires AssembledSpec(text, template, drafts).Ok?
    ensures
      var weights := AssembledSpec(text, template, drafts).value.0.weights;
      && (template.Some? && template.value.weights != map[] ==> weights == template.value.weights)
      && (template == None || template.value.weights == map[] ==>
            && weights == map["relevant_experience" := 0.25, "skills" := 0.20, "industry" := 0.15,
                              "career_stability" := 0.10, "education" := 0.10, "language" := 0.05,
                              "location" := 0.05, "custom" := 0.10])
  {
    hide Drafted, Kept;
  }

  /** A draft is refused only for a rung outside [0, 1] on a ladder that would have been used. */
  lemma ConvertFails(text: P.Text, draft: Draft)
    ensures Convert(text, draft).Err? <==>
              && (CheckedRule(text, draft) == None || draft.evaluator != Deterministic)
              && exists i :: 0 <= i < |draft.anchors| && !(0.0 <= draft.anchors[i] <= 1.0)
  {
    AnchorsInRange(draft.anchors);
  }

  /** The refusal names the first rung outside [0, 1]. */
  lemma {:induction false} FirstBadRung(anchors: seq<real>, i: nat)
    requires i < |anchors| && !(0.0 <= anchors[i] <= 1.0)
    requires forall k :: 0 <= k < i ==> 0.0 <= anchors[k] <= 1.0
    ensures BadAnchor(anchors) == Some(anchors[i])
  {
    if i > 0 {
      assert forall k :: 0 <= k < i - 1 ==> anchors[1..][k] == anchors[k + 1];
      FirstBadRung(anchors[1..], i - 1);
    }
  }

  lemma RefusalNames(text: P.Text, draft: Draft, i: nat)
    requires Convert(text, draft).Err? && i < |draft.anchors| && !(0.0 <= draft.anchors[i] <= 1.0)
    requires forall k :: 0 <= k < i ==> 0.0 <= draft.anchors[k] <= 1.0
    ensures Convert(text, draft).error == AnchorOutOfRange(draft.anchors[i])
  {
    hide CheckedRule, BadAnchor;
    FirstBadRung(draft.anchors, i);
  }

  /** What a converted draft is reported for, kind by kind; nothing is reported about another id. */
  lemma WarningsMeaning(text: P.Text, draft: Draft, error: P.PredicateError)
    requires Convert(text, draft).Ok?
    ensures
      var (req, warnings) := Convert(text, draft).value;
      var judged := req.evaluator != Deterministic;
      var ruled := draft.evaluator != Semantic;
      && (NoConditions(draft.reqId) in warnings <==>
            ruled && forall i :: 0 <= i < |draft.conditions| ==> !Usable(draft.conditions[i]))
      && (InvalidPredicate(draft.reqId, error) in warnings <==>
            ruled && PredicateOf(draft).Some? && L.Fault(PredicateOf(draft).value) == Some(error))
      && (GenericRubric(draft.reqId) in warnings <==> judged && draft.rubric == "")
      && (DefaultScale(draft.reqId) in warnings <==> judged && |draft.anchors| == 1)
      && (forall w :: w in warnings ==> !w.Renamed? && w.reqId == draft.reqId)
  {
    DowngradesMeaning(text, draft, error);
    hide CheckedRule, DowngradeWarnings, BadAnchor, PredicateOf, L.Fault;
    var rubric := if draft.rubric == "" then [GenericRubric(draft.reqId)] else [];
    var scale := if |draft.anchors| == 1 then [DefaultScale(draft.reqId)] else [];
    var (req, warnings) := Convert(text, draft).value;
    assert req.evaluator != Deterministic ==> warnings == DowngradeWarnings(text, draft) + rubric + scale;
    assert req.evaluator == Deterministic ==> warnings == DowngradeWarnings(text, draft) + [] + [];
  }

  lemma DowngradesMeaning(text: P.Text, draft: Draft, error: P.PredicateError)
    ensures
      var warnings := DowngradeWarnings(text, draft);
      var ruled := draft.evaluator != Semantic;
      && (NoConditions(draft.reqId) in warnings <==>
            ruled && forall i :: 0 <= i < |draft.conditions| ==> !Usable(draft.conditions[i]))
      && (InvalidPredicate(draft.reqId, error) in warnings <==>
            ruled && PredicateOf(draft).Some? && L.Fault(PredicateOf(draft).value) == Some(error))
      && (forall w :: w in warnings ==> (w.NoConditions? || w.InvalidPredicate?) && w.reqId == draft.reqId)
  {
    NoLeaves(draft.conditions);
    if PredicateOf(draft).Some? {
      L.EvaluateReports(text, PredicateOf(draft).value, L.EMPTY_PROFILE);
    }
    hide P.Evaluate, L.Fault, Leaves;
  }

  lemma {:induction false} NoLeaves(conditions: seq<Condition>)
    ensures Leaves(conditions) == [] <==> forall i :: 0 <= i < |conditions| ==> !Usable(conditions[i])
  {
    if conditions != [] {
      NoLeaves(conditions[..|conditions| - 1]);
    }
  }

  /** A condition without a value is left out of the rule. */
  lemma {:induction false} ConditionsKept(conditions: seq<Condition>)
    ensures |Leaves(conditions)| <= |conditions|
    ensures |Leaves(conditions)| == |conditions| <==> forall i :: 0 <= i < |conditions| ==> Usable(conditions[i])
  {
    if conditions != [] {
      ConditionsKept(conditions[..|conditions| - 1]);
    }
  }

  predicate ReportsRule(w: Warning) {
    w.NoConditions? || w.InvalidPredicate?
  }

  /** The compiler says something about a draft's conditions only when no rule at all comes of them. */
  lemma ReportedExactly(text: P.Text, draft: Draft)
    requires Convert(text, draft).Ok?
    ensures
      var warnings := Convert(text, draft).value.1;
      (exists w :: w in warnings && ReportsRule(w)) <==>
        draft.evaluator != Semantic && CheckedRule(text, draft) == None
  {
    CheckedRuleIsValid(text, draft);
    DowngradesReport(text, draft);
    hide CheckedRule, DowngradeWarnings, BadAnchor;
    var warnings := Convert(text, draft).value.1;
    if draft.evaluator != Semantic && CheckedRule(text, draft) == None {
      var first := DowngradeWarnings(text, draft)[0];
      assert first in DowngradeWarnings(text, draft) && warnings[0] == first && first in warnings;
    }
  }

  lemma DowngradesReport(text: P.Text, draft: Draft)
    ensures forall w :: w in DowngradeWarnings(text, draft) ==> ReportsRule(w)
  {
    hide P.Evaluate, PredicateOf;
  }

  /** A draft with a sound rule is converted without any warning, whatever conditions the rule has lost. */
  lemma NothingReported(text: P.Text, draft: Draft)
    requires draft.evaluator == Deterministic && CheckedRule(text, draft).Some?
    ensures Convert(text, draft).Ok? && Convert(text, draft).value.1 == []
  {
    CheckedRuleIsValid(text, draft);
    hide CheckedRule, DowngradeWarnings, BadAnchor;
  }

  /** Lists skills and has a certificate nobody named: only the first condition becomes the rule. */
  const UNNAMED_CERTIFICATE :=
    Draft("d", "custom", Hard, Deterministic,
          [Condition("skills.canonical", P.Exists, None, None, None),
           Condition("certifications.name_canonical", P.Contains, None, None, None)],
          CombineAll, None, None, None, AsUnknown, "", [], [])

  lemma RuleLeft()
    ensures PredicateOf(UNNAMED_CERTIFICATE) == Some(P.Leaf("skills.canonical", P.Exists, P.JNull))
  {
    var conditions := UNNAMED_CERTIFICATE.conditions;
    var first := [conditions[0]];
    assert conditions[..|conditions| - 1] == first && first[..|first| - 1] == [];
    assert Leaves(first) == [P.Leaf("skills.canonical", P.Exists, P.JNull)];
    assert Leaves(conditions) == Leaves(first);
  }

  lemma SkillsRegistered()
    ensures L.Fault(P.Leaf("skills.canonical", P.Exists, P.JNull)) == None
  {
    hide P.LanguageCode;
    assert "skills.canonical" in P.REGISTRY_PATHS;
  }

  lemma ConditionLostSilently(text: P.Text)
    ensures !Usable(UNNAMED_CERTIFICATE.conditions[1])
    ensures PredicateOf(UNNAMED_CERTIFICATE) == Some(P.Leaf("skills.canonical", P.Exists, P.JNull))
    ensures Convert(text, UNNAMED_CERTIFICATE).Ok? && Convert(text, UNNAMED_CERTIFICATE).value.1 == []
  {
    hide Convert, CheckedRule, PredicateOf, L.Fault, DowngradeWarnings;
    RuleLeft();
    SkillsRegistered();
    CheckedRuleIsValid(text, UNNAMED_CERTIFICATE);
    NothingReported(text, UNNAMED_CERTIFICATE);
  }

  /** The template's bonus cap reaches the compiled specification exactly when it is the default one. */
  lemma BonusCapIsDefault(text: P.Text, template: EvaluationSpec, drafts: seq<Draft>)
    requires AssembledSpec(text, Some(template), drafts).Ok?
    ensures AssembledSpec(text, Some(template), drafts).value.0.bonusCap == template.bonusCap <==>
              template.bonusCap == 10.0
  {
    hide Drafted, Kept;
  }

  // ----- the template -----

  /** Where the kept requirements stand in the template. */
  ghost function KeptAt(template: seq<Requirement>, drafts: seq<Draft>): seq<int> {
    if template == [] then []
    else
      var n := |template| - 1;
      KeptAt(template[..n], drafts) + if Absorbed(drafts, template[n].reqId) then [] else [n]
  }

  lemma {:induction false} KeptAtMeaning(template: seq<Requirement>, drafts: seq<Draft>)
    ensures forall i :: i in KeptAt(template, drafts) <==> 0 <= i < |template| && !Absorbed(drafts, template[i].reqId)
    ensures forall j, k :: 0 <= j < k < |KeptAt(template, drafts)| ==>
              KeptAt(template, drafts)[j] < KeptAt(template, drafts)[k]
  {
    hide Absorbed;
    if template != [] {
      var n := |template| - 1;
      KeptAtMeaning(template[..n], drafts);
      var before := KeptAt(template[..n], drafts);
      forall k | 0 <= k < |before|
        ensures before[k] < n
      {
        assert before[k] in before;
      }
    }
  }

  /** What is kept of the template is exactly what no draft absorbs, in the template's order. */
  lemma {:induction false} KeptInOrder(template: seq<Requirement>, drafts: seq<Draft>)
    ensures |KeptAt(template, drafts)| == |Kept(template, drafts)|
    ensures forall k :: 0 <= k < |Kept(template, drafts)| ==>
              var at := KeptAt(template, drafts)[k];
              0 <= at < |template| && Kept(template, drafts)[k] == template[at]
  {
    hide Absorbed;
    if template != [] {
      KeptInOrder(template[..|template| - 1], drafts);
    }
  }

  lemma KeptUnique(template: seq<Requirement>, drafts: seq<Draft>)
    requires UniqueIds(template)
    ensures UniqueIds(Kept(template, drafts))
  {
    KeptInOrder(template, drafts);
    KeptAtMeaning(template, drafts);
    var at := KeptAt(template, drafts);
    var kept := Kept(template, drafts);
    forall j, k | 0 <= j < k < |kept|
      ensures kept[j].reqId != kept[k].reqId
    {
      assert at[j] < at[k];
    }
  }

  // ----- the drafts -----

  /** The draft became `reqs[at]`, under its own id if that was still free and the least free suffix of it otherwise. */
  ghost predicate CarriesDraft(text: P.Text, reqs: seq<Requirement>, at: nat, draft: Draft) {
    && at < |reqs|
    && Convert(text, draft).Ok?
    && reqs[at] == Convert(text, draft).value.0.(reqId := reqs[at].reqId)
    && (if draft.reqId !in Ids(reqs[..at]) then reqs[at].reqId == draft.reqId
        else reqs[at].reqId == Suffixed(draft.reqId, FirstFree(draft.reqId, Ids(reqs[..at]), 2)))
  }

  /** A suffix is an underscore and the number in decimal digits. */
  lemma SuffixReads(base: string, n: nat, digit: nat)
    requires digit < 10
    ensures Suffixed(base, digit) == base + "_" + ["0123456789"[digit]]
    ensures n > 0 ==> Suffixed(base, 10 * n + digit) == Suffixed(base, n) + ["0123456789"[digit]]
  {
    assert (10 * n + digit) / 10 == n && (10 * n + digit) % 10 == digit;
    assert "0123456789"[digit] == '0' + digit as char;
  }

  lemma PlacedIsFree(reqs: seq<Requirement>, req: Requirement)
    ensures Placed(reqs, req).reqId !in Ids(reqs)
  {
    hide Suffixed, FirstFree;
    FirstFreeMeaning(req.reqId, Ids(reqs), 2);
  }

  lemma ConvertKeepsId(text: P.Text, draft: Draft)
    requires Convert(text, draft).Ok?
    ensures Convert(text, draft).value.0.reqId == draft.reqId
  {
    hide CheckedRule, DowngradeWarnings, BadAnchor;
  }

  /** Nothing is dropped: the kept requirements come first, then every draft, in order. */
  lemma {:induction false} DraftsInOrder(text: P.Text, kept: seq<Requirement>, drafts: seq<Draft>)
    requires Drafted(text, kept, drafts).Ok?
    ensures
      var reqs := Drafted(text, kept, drafts).value.requirements;
      && |reqs| == |kept| + |drafts|
      && reqs[..|kept|] == kept
      && forall j :: 0 <= j < |drafts| ==> CarriesDraft(text, reqs, |kept| + j, drafts[j])
  {
    hide Convert, Suffixed, FirstFree, Ids, DowngradeWarnings;
    if drafts != [] {
      var init, last := drafts[..|drafts| - 1], drafts[|drafts| - 1];
      DraftsInOrder(text, kept, init);
      ConvertKeepsId(text, last);
      var before := Drafted(text, kept, init).value.requirements;
      var reqs := Drafted(text, kept, drafts).value.requirements;
      assert reqs[..|before|] == before;
      forall j | 0 <= j < |drafts|
        ensures CarriesDraft(text, reqs, |kept| + j, drafts[j])
      {
        assert reqs[..|kept| + j] == before[..|kept| + j];
        if j < |init| {
          assert CarriesDraft(text, before, |kept| + j, init[j]);
        }
      }
    }
  }

  lemma {:induction false} IdsMeaning(reqs: seq<Requirement>)
    ensures forall id :: id in Ids(reqs) <==> exists i :: 0 <= i < |reqs| && reqs[i].reqId == id
  {
    if reqs != [] {
      var n := |reqs| - 1;
      IdsMeaning(reqs[..n]);
      forall id
        ensures id in Ids(reqs) <==> exists i :: 0 <= i < |reqs| && reqs[i].reqId == id
      {
        if id in Ids(reqs[..n]) {
          var i :| 0 <= i < n && reqs[..n][i].reqId == id;
          assert reqs[i].reqId == id;
        }
        if i :| 0 <= i < |reqs| && reqs[i].reqId == id {
          assert i < n ==> reqs[..n][i].reqId == id;
        }
      }
    }
  }

  lemma UniqueSnoc(reqs: seq<Requirement>, req: Requirement)
    requires req.reqId !in Ids(reqs)
    ensures UniqueIds(reqs + [req]) <==> UniqueIds(reqs)
  {
    IdsMeaning(reqs);
    assert forall i :: 0 <= i < |reqs| ==> (reqs + [req])[i] == reqs[i];
  }

  /** Ids come out unique exactly when the kept template ids already were: drafts never add a clash. */
  lemma {:induction false} DraftsAddNoClash(text: P.Text, kept: seq<Requirement>, drafts: seq<Draft>)
    requires Drafted(text, kept, drafts).Ok?
    ensures UniqueIds(Drafted(text, kept, drafts).value.requirements) <==> UniqueIds(kept)
  {
    hide Convert, UniqueIds, Placed;
    if drafts != [] {
      var init, last := drafts[..|drafts| - 1], drafts[|drafts| - 1];
      DraftsAddNoClash(text, kept, init);
      var before := Drafted(text, kept, init).value.requirements;
      var placed := Placed(before, Convert(text, last).value.0);
      PlacedIsFree(before, Convert(text, last).value.0);
      UniqueSnoc(before, placed);
    }
  }

  // ----- compiled rules never raise -----

  ghost predicate RulesHold(reqs: seq<Requirement>) {
    forall i :: 0 <= i < |reqs| && reqs[i].deterministic.Some? ==> L.Fault(reqs[i].deterministic.value.rule) == None
  }

  lemma CheckedReports(text: P.Text, req: Requirement, profile: P.Profile)
    ensures D.Checked(text, req, profile).Ok? <==>
              (req.deterministic.Some? ==> L.Fault(req.deterministic.value.rule) == None)
  {
    hide P.EvaluateWithBorderline, L.Fault, D.RuleVerdict;
    if req.deterministic.Some? {
      var check := req.deterministic.value;
      L.BorderlineReports(text, check.rule, profile, check.borderlineTolerance);
    }
  }

  /** Whether the rule stage raises is decided by the specification alone, not by whom it screens. */
  lemma {:induction false} StageReports(text: P.Text, reqs: seq<Requirement>, profile: P.Profile)
    ensures D.StageOf(text, reqs, profile).Ok? <==> RulesHold(reqs)
  {
    hide D.Checked, L.Fault;
    if reqs != [] {
      StageReports(text, reqs[..|reqs| - 1], profile);
      CheckedReports(text, reqs[|reqs| - 1], profile);
    }
  }

  lemma CarriedIsSturdy(text: P.Text, reqs: seq<Requirement>, at: nat, draft: Draft)
    requires CarriesDraft(text, reqs, at, draft)
    ensures Sturdy(reqs[at])
  {
    hide Convert, Ids, FirstFree;
    ConvertIsFaithful(text, draft);
    var req := Convert(text, draft).value.0;
    assert Sturdy(req);
    assert A.Rungs(reqs[at]) == A.Rungs(req);
  }

  /**
   A compiled specification is fit to run: when the kept part of the template is sound, ids are unique,
   every ladder stays within [0, 1], and the rule stage raises for no profile whatever.
   */
  lemma CompiledIsFit(text: P.Text, template: Option<EvaluationSpec>, drafts: seq<Draft>, other: P.Text,
                      profile: P.Profile)
    requires AssembledSpec(text, template, drafts).Ok?
    requires
      var kept := Kept(TemplateRequirements(template), drafts);
      UniqueIds(kept) && RulesHold(kept) && Laws.SoundLadders(kept)
    ensures
      var reqs := AssembledSpec(text, template, drafts).value.0.requirements;
      UniqueIds(reqs) && Laws.SoundLadders(reqs) && D.StageOf(other, reqs, profile).Ok?
  {
    hide Convert, Absorbed, Sturdy, D.StageOf, UniqueIds, CarriesDraft;
    var kept := Kept(TemplateRequirements(template), drafts);
    var reqs := AssembledSpec(text, template, drafts).value.0.requirements;
    DraftsInOrder(text, kept, drafts);
    DraftsAddNoClash(text, kept, drafts);
    forall i | 0 <= i < |reqs|
      ensures reqs[i] == (if i < |kept| then kept[i] else reqs[i]) && (i >= |kept| ==> Sturdy(reqs[i]))
    {
      if i < |kept| {
        assert reqs[..|kept|][i] == kept[i];
      } else {
        assert CarriesDraft(text, reqs, |kept| + (i - |kept|), drafts[i - |kept|]);
        CarriedIsSturdy(text, reqs, i, drafts[i - |kept|]);
      }
    }
    FitFromParts(reqs, |kept|);
    StageReports(other, reqs, profile);
  }

  /** In particular a sound template compiles into a specification fit to run. */
  lemma SoundTemplateIsFit(text: P.Text, template: EvaluationSpec, drafts: seq<Draft>, other: P.Text,
                           profile: P.Profile)
    requires AssembledSpec(text, Some(template), drafts).Ok?
    requires UniqueIds(template.requirements)
    requires RulesHold(template.requirements) && Laws.SoundLadders(template.requirements)
    ensures
      var reqs := AssembledSpec(text, Some(template), drafts).value.0.requirements;
      UniqueIds(reqs) && Laws.SoundLadders(reqs) && D.StageOf(other, reqs, profile).Ok?
  {
    hide AssembledSpec, Absorbed, D.StageOf, UniqueIds, L.Fault, A.Rungs;
    KeptUnique(template.requirements, drafts);
    KeptInOrder(template.requirements, drafts);
    CompiledIsFit(text, Some(template), drafts, other, profile);
  }

  lemma FitFromParts(reqs: seq<Requirement>, n: nat)
    requires n <= |reqs| && RulesHold(reqs[..n]) && Laws.SoundLadders(reqs[..n])
    requires forall i :: n <= i < |reqs| ==> Sturdy(reqs[i])
    ensures RulesHold(reqs) && Laws.SoundLadders(reqs)
  {
    hide L.Fault, A.Rungs;
    assert forall i :: 0 <= i < n ==> reqs[..n][i] == reqs[i];
  }
}
