/** Stage 2 (compiler/compiler.py): template and drafted requirements become a validated specification. */
module Compiler {
  import opened Wrappers
  import opened Spec
  import P = Predicates
  import L = PredicateLaws

  /** What the model drafts: flat conditions and a combinator, never a predicate. */
  datatype Condition = Condition(
    field: string, op: P.Op, number: Option<real>, text: Option<string>, list: Option<seq<string>>)
  datatype Combine = CombineAll | CombineAny

  datatype Draft = Draft(
    reqId: string, category: string, kind: RequirementType, evaluator: Evaluator,
    conditions: seq<Condition>, combine: Combine,
    borderlineTolerance: Option<real>, penaltyPoints: Option<real>, bonusPoints: Option<real>,
    missingPolicy: MissingPolicy, rubric: string, anchors: seq<real>, absorbs: seq<string>)

  datatype Warning =
    | NoConditions(reqId: string)
    | InvalidPredicate(reqId: string, error: P.PredicateError)
    | GenericRubric(reqId: string)
    | DefaultScale(reqId: string)
    | Renamed(base: string, to: string)

  /** A drafted rung outside [0, 1] is refused by the schema of the specification. */
  datatype CompileError = AnchorOutOfRange(score: real)

  const DEFAULT_WEIGHTS: map<string, real> :=
    map["relevant_experience" := 0.25, "skills" := 0.20, "industry" := 0.15, "career_stability" := 0.10,
        "education" := 0.10, "language" := 0.05, "location" := 0.05, "custom" := 0.10]
  const DEFAULT_BONUS_CAP := 10.0

  // ----- predicates -----

  function Strings(items: seq<string>): seq<P.Json> {
    seq(|items|, i requires 0 <= i < |items| => P.JStr(items[i]))
  }

  function ConditionValue(c: Condition): Option<P.Json> {
    if c.number.Some? then Some(P.JNum(c.number.value))
    else if c.list.Some? then Some(P.JList(Strings(c.list.value)))
    else if c.text.Some? then Some(P.JStr(c.text.value))
    else None
  }

  predicate Usable(c: Condition) {
    c.op.Exists? || ConditionValue(c).Some?
  }

  function LeafFor(c: Condition): P.Predicate
    requires Usable(c)
  {
    P.Leaf(c.field, c.op, if c.op.Exists? then P.JNull else ConditionValue(c).value)
  }

  function Leaves(conditions: seq<Condition>): seq<P.Predicate> {
    if conditions == [] then []
    else
      var last := conditions[|conditions| - 1];
      Leaves(conditions[..|conditions| - 1]) + if Usable(last) then [LeafFor(last)] else []
  }

  function PredicateOf(draft: Draft): Option<P.Predicate> {
    var leaves := Leaves(draft.conditions);
    if leaves == [] then None
    else if |leaves| == 1 then Some(leaves[0])
    else if draft.combine == CombineAll then Some(P.All(leaves))
    else Some(P.Any(leaves))
  }

  method BuildPredicate(draft: Draft) returns (rule: Option<P.Predicate>)
    ensures rule == PredicateOf(draft)
  {
    var conditions := draft.conditions;
    var leaves: seq<P.Predicate> := [];
    for i := 0 to |conditions|
      invariant leaves == Leaves(conditions[..i])
    {
      assert conditions[..i + 1][..i] == conditions[..i];
      var condition := conditions[i];
      var leaf := P.Leaf(condition.field, condition.op, P.JNull);
      if !condition.op.Exists? {
        var value := ConditionValue(condition);
        if value == None { continue; }
        leaf := leaf.(value := value.value);
      }
      leaves := leaves + [leaf];
    }
    assert conditions[..|conditions|] == conditions;
    if leaves == [] { return None; }
    if |leaves| == 1 { return Some(leaves[0]); }
    rule := Some(if draft.combine == CombineAll then P.All(leaves) else P.Any(leaves));
  }

  // ----- one requirement -----

  /** The rule of a draft that asks for one and whose conditions make sense. */
  function CheckedRule(text: P.Text, draft: Draft): Option<P.Predicate> {
    if draft.evaluator == Semantic then None
    else
      match PredicateOf(draft)
      case None => None
      case Some(rule) => if P.Evaluate(text, rule, L.EMPTY_PROFILE).Ok? then Some(rule) else None
  }

  function DowngradeWarnings(text: P.Text, draft: Draft): seq<Warning> {
    if draft.evaluator == Semantic then []
    else
      match PredicateOf(draft)
      case None => [NoConditions(draft.reqId)]
      case Some(rule) =>
        match P.Evaluate(text, rule, L.EMPTY_PROFILE)
        case Ok(_) => []
        case Err(e) => [InvalidPredicate(draft.reqId, e)]
  }

  /** The first drafted rung outside [0, 1]. */
  function BadAnchor(anchors: seq<real>): Option<real> {
    if anchors == [] then None
    else if 0.0 <= anchors[0] <= 1.0 then BadAnchor(anchors[1..])
    else Some(anchors[0])
  }

  /** A draft becomes a requirement; a rule that does not hold up leaves a semantic one behind. */
  function Convert(text: P.Text, draft: Draft): Result<(Requirement, seq<Warning>), CompileError> {
    var rule := CheckedRule(text, draft);
    var evaluator := if rule == None then Semantic else draft.evaluator;
    var judged := evaluator != Deterministic;
    if judged && BadAnchor(draft.anchors).Some? then Err(AnchorOutOfRange(BadAnchor(draft.anchors).value))
    else
      var req := Requirement(
        draft.reqId, draft.category, draft.kind, evaluator,
        (match rule
         case None => None
         case Some(p) => Some(DeterministicCheck(p, draft.borderlineTolerance, draft.penaltyPoints))),
        (if judged then Some(SemanticCheck(if |draft.anchors| < 2 then [] else draft.anchors)) else None),
        draft.missingPolicy, 1.0, draft.bonusPoints);
      Ok((req,
          DowngradeWarnings(text, draft)
          + (if judged && draft.rubric == "" then [GenericRubric(draft.reqId)] else [])
          + (if judged && |draft.anchors| == 1 then [DefaultScale(draft.reqId)] else [])))
  }

  // ----- unique ids -----

  function Decimal(n: nat): string {
    var digit := ['0' + (n % 10) as char];
    if n < 10 then digit else Decimal(n / 10) + digit
  }

  function Suffixed(base: string, n: nat): string {
    base + "_" + Decimal(n)
  }

  /** The first free suffix from `n` on; every taken name is one id less to meet, so the search ends. */
  function FirstFree(base: string, taken: set<string>, n: nat): nat
    decreases |taken|
  {
    if Suffixed(base, n) in taken then FirstFree(base, taken - {Suffixed(base, n)}, n + 1) else n
  }

  function Ids(reqs: seq<Requirement>): set<string> {
    if reqs == [] then {} else Ids(reqs[..|reqs| - 1]) + {reqs[|reqs| - 1].reqId}
  }

  function Placed(reqs: seq<Requirement>, req: Requirement): Requirement {
    if req.reqId in Ids(reqs)
    then req.(reqId := Suffixed(req.reqId, FirstFree(req.reqId, Ids(reqs), 2)))
    else req
  }

  // ----- the whole specification -----

  predicate Absorbed(drafts: seq<Draft>, reqId: string) {
    exists i :: 0 <= i < |drafts| && reqId in drafts[i].absorbs
  }

  function Kept(template: seq<Requirement>, drafts: seq<Draft>): seq<Requirement> {
    if template == [] then []
    else
      var last := template[|template| - 1];
      Kept(template[..|template| - 1], drafts) + if Absorbed(drafts, last.reqId) then [] else [last]
  }

  datatype Assembly = Assembly(requirements: seq<Requirement>, warnings: seq<Warning>)

  function Extended(before: Assembly, req: Requirement, warnings: seq<Warning>): Assembly {
    var placed := Placed(before.requirements, req);
    Assembly(before.requirements + [placed],
             before.warnings + warnings + if placed == req then [] else [Renamed(req.reqId, placed.reqId)])
  }

  function Drafted(text: P.Text, kept: seq<Requirement>, drafts: seq<Draft>): Result<Assembly, CompileError> {
    if drafts == [] then Ok(Assembly(kept, []))
    else
      match Drafted(text, kept, drafts[..|drafts| - 1])
      case Err(e) => Err(e)
      case Ok(before) =>
        match Convert(text, drafts[|drafts| - 1])
        case Err(e) => Err(e)
        case Ok(converted) => Ok(Extended(before, converted.0, converted.1))
  }

  function TemplateRequirements(template: Option<EvaluationSpec>): seq<Requirement> {
    if template == None then [] else template.value.requirements
  }

  function WeightsFrom(template: Option<EvaluationSpec>): map<string, real> {
    if template == None || template.value.weights == map[] then DEFAULT_WEIGHTS else template.value.weights
  }

  /** The template gives its weights and the requirements no draft absorbs; its bonus cap is not carried over. */
  function AssembledSpec(text: P.Text, template: Option<EvaluationSpec>, drafts: seq<Draft>)
    : Result<(EvaluationSpec, seq<Warning>), CompileError>
  {
    match Drafted(text, Kept(TemplateRequirements(template), drafts), drafts)
    case Err(e) => Err(e)
    case Ok(a) => Ok((EvaluationSpec(WeightsFrom(template), DEFAULT_BONUS_CAP, a.requirements), a.warnings))
  }

  // ----- the rename loop ends -----

  lemma {:induction false} DecimalInjective(m: nat, n: nat)
    requires Decimal(m) == Decimal(n)
    ensures m == n
    decreases m
  {
    var a, b := Decimal(m), Decimal(n);
    assert a[|a| - 1] == '0' + (m % 10) as char && b[|b| - 1] == '0' + (n % 10) as char;
    assert a[..|a| - 1] == (if m < 10 then "" else Decimal(m / 10));
    assert b[..|b| - 1] == (if n < 10 then "" else Decimal(n / 10));
    DecimalNotEmpty(m / 10);
    DecimalNotEmpty(n / 10);
    if m >= 10 && n >= 10 {
      DecimalInjective(m / 10, n / 10);
    }
  }

  lemma DecimalNotEmpty(n: nat)
    ensures Decimal(n) != ""
  {
  }

  lemma SuffixesDiffer(base: string, m: nat, n: nat)
    requires Suffixed(base, m) == Suffixed(base, n)
    ensures m == n
  {
    var prefix := base + "_";
    assert Decimal(m) == Suffixed(base, m)[|prefix|..];
    assert Decimal(n) == Suffixed(base, n)[|prefix|..];
    DecimalInjective(m, n);
  }

  /** The suffix found is free, and the least such from `n` on. */
  lemma {:induction false} FirstFreeMeaning(base: string, taken: set<string>, n: nat)
    ensures FirstFree(base, taken, n) >= n
    ensures Suffixed(base, FirstFree(base, taken, n)) !in taken
    ensures forall k :: n <= k < FirstFree(base, taken, n) ==> Suffixed(base, k) in taken
    decreases |taken|
  {
    if Suffixed(base, n) in taken {
      var rest := taken - {Suffixed(base, n)};
      FirstFreeMeaning(base, rest, n + 1);
      var found := FirstFree(base, rest, n + 1);
      if Suffixed(base, found) == Suffixed(base, n) {
        SuffixesDiffer(base, found, n);
      }
    }
  }

  /** Looking at the ids still taken is looking at all of them: a name met once never comes up again. */
  lemma {:induction false} FirstFreeFrom(base: string, taken: set<string>, n: nat, k: nat)
    requires n <= k && forall i :: n <= i < k ==> Suffixed(base, i) in taken
    ensures Suffixed(base, k) in taken ==> FirstFree(base, taken, n) > k
    ensures Suffixed(base, k) !in taken ==> FirstFree(base, taken, n) == k
  {
    FirstFreeMeaning(base, taken, n);
  }

  method Rename(base: string, taken: set<string>) returns (name: string)
    ensures name == Suffixed(base, FirstFree(base, taken, 2))
  {
    FirstFreeMeaning(base, taken, 2);
    var n := 2;
    while Suffixed(base, n) in taken
      invariant 2 <= n <= FirstFree(base, taken, 2)
      invariant forall k :: 2 <= k < n ==> Suffixed(base, k) in taken
      decreases FirstFree(base, taken, 2) - n
    {
      n := n + 1;
      FirstFreeFrom(base, taken, 2, n - 1);
    }
    FirstFreeFrom(base, taken, 2, n);
    name := Suffixed(base, n);
  }

  method AssembleSpec(text: P.Text, template: Option<EvaluationSpec>, drafts: seq<Draft>)
    returns (result: Result<(EvaluationSpec, seq<Warning>), CompileError>)
    ensures result == AssembledSpec(text, template, drafts)
  {
    hide Convert;
    var offered := TemplateRequirements(template);
    var requirements: seq<Requirement>, warnings: seq<Warning> := [], [];
    for i := 0 to |offered|
      invariant requirements == Kept(offered[..i], drafts)
    {
      assert offered[..i + 1][..i] == offered[..i];
      if Absorbed(drafts, offered[i].reqId) { continue; }
      requirements := requirements + [offered[i]];
    }
    assert offered[..|offered|] == offered;
    ghost var kept := requirements;
    var seen := Ids(requirements);
    for i := 0 to |drafts|
      invariant Drafted(text, kept, drafts[..i]) == Ok(Assembly(requirements, warnings))
      invariant seen == Ids(requirements)
    {
      hide Drafted, Extended, Placed, Suffixed, FirstFree;
      DraftedSnoc(text, kept, drafts, i);
      var converted := Convert(text, drafts[i]);
      if converted.Err? {
        FirstErrorDecides(text, kept, drafts, i + 1);
        return Err(converted.error);
      }
      var req := converted.value.0;
      var added := converted.value.1;
      ExtendedBy(Assembly(requirements, warnings), req, added);
      IdsSnoc(requirements, req);
      IdsSnoc(requirements, req.(reqId := Suffixed(req.reqId, FirstFree(req.reqId, seen, 2))));
      if req.reqId in seen {
        var name := Rename(req.reqId, seen);
        added := added + [Renamed(req.reqId, name)];
        req := req.(reqId := name);
      }
      warnings := warnings + added;
      seen := seen + {req.reqId};
      requirements := requirements + [req];
    }
    assert drafts[..|drafts|] == drafts;
    result := Ok((EvaluationSpec(WeightsFrom(template), DEFAULT_BONUS_CAP, requirements), warnings));
  }

  lemma ExtendedBy(before: Assembly, req: Requirement, warnings: seq<Warning>)
    ensures req.reqId !in Ids(before.requirements) ==>
              Extended(before, req, warnings) == Assembly(before.requirements + [req], before.warnings + warnings)
    ensures req.reqId in Ids(before.requirements) ==>
              var name := Suffixed(req.reqId, FirstFree(req.reqId, Ids(before.requirements), 2));
              Extended(before, req, warnings)
              == Assembly(before.requirements + [req.(reqId := name)],
                          before.warnings + (warnings + [Renamed(req.reqId, name)]))
  {
    hide FirstFree, Suffixed;
    FirstFreeMeaning(req.reqId, Ids(before.requirements), 2);
    assert before.warnings + warnings + [] == before.warnings + warnings;
    forall w: seq<Warning>
      ensures before.warnings + warnings + w == before.warnings + (warnings + w)
    {
    }
  }

  lemma IdsSnoc(reqs: seq<Requirement>, req: Requirement)
    ensures Ids(reqs + [req]) == Ids(reqs) + {req.reqId}
  {
    assert (reqs + [req])[..|reqs|] == reqs;
  }

  lemma DraftedSnoc(text: P.Text, kept: seq<Requirement>, drafts: seq<Draft>, i: nat)
    requires i < |drafts|
    ensures Drafted(text, kept, drafts[..i + 1]) ==
            match Drafted(text, kept, drafts[..i])
            case Err(e) => Err(e)
            case Ok(before) =>
              match Convert(text, drafts[i])
              case Err(e) => Err(e)
              case Ok(converted) => Ok(Extended(before, converted.0, converted.1))
  {
    hide Convert, Extended;
    assert drafts[..i + 1][..i] == drafts[..i];
  }

  lemma {:induction false} FirstErrorDecides(text: P.Text, kept: seq<Requirement>, drafts: seq<Draft>, i: nat)
    requires i <= |drafts| && Drafted(text, kept, drafts[..i]).Err?
    ensures Drafted(text, kept, drafts) == Drafted(text, kept, drafts[..i])
  {
    hide Convert, Extended;
    if i < |drafts| {
      assert drafts[..|drafts| - 1][..i] == drafts[..i];
      FirstErrorDecides(text, kept, drafts[..|drafts| - 1], i);
    } else {
      assert drafts[..i] == drafts;
    }
  }
}
