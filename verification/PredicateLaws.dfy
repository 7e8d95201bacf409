/** Laws of the predicate language: where errors come from, what new facts and tolerance can change. */
module PredicateLaws {
  import opened Wrappers
  import opened Predicates

  // ----- errors depend on the predicate alone -----

  function LeafFault(field: string, op: Op): Option<PredicateError> {
    if field == "" || op.Unsupported? then Some(Malformed)
    else if !Registered(field) then Some(NotInRegistry(field))
    else None
  }

  /** The first thing wrong with a predicate, reading it left to right. No profile is involved. */
  function Fault(rule: Predicate): Option<PredicateError>
    decreases rule, 1
  {
    match rule
    case All(ps) => FirstFault(ps)
    case Any(ps) => FirstFault(ps)
    case Not(p) => Fault(p)
    case Leaf(field, op, _) => LeafFault(field, op)
  }

  function FirstFault(ps: seq<Predicate>): Option<PredicateError>
    decreases ps, 0
  {
    if ps == [] then None
    else if Fault(ps[0]).Some? then Fault(ps[0])
    else FirstFault(ps[1..])
  }

  ghost predicate Reports<T>(outcome: Result<T, PredicateError>, fault: Option<PredicateError>) {
    match outcome
    case Ok(_) => fault == None
    case Err(e) => fault == Some(e)
  }

  /** Evaluation raises exactly the fault of the predicate, whatever the profile holds. */
  lemma {:induction false} EvaluateReports(text: Text, rule: Predicate, profile: Profile)
    ensures Reports(Evaluate(text, rule, profile), Fault(rule))
    decreases rule, 1
  {
    match rule
    case All(ps) => EachReports(text, ps, profile);
    case Any(ps) => EachReports(text, ps, profile);
    case Not(p) => EvaluateReports(text, p, profile);
    case Leaf(_, _, _) =>
  }

  lemma {:induction false} EachReports(text: Text, ps: seq<Predicate>, profile: Profile)
    ensures Reports(EvaluateEach(text, ps, profile), FirstFault(ps))
    decreases ps, 0
  {
    if ps != [] {
      EvaluateReports(text, ps[0], profile);
      EachReports(text, ps[1..], profile);
    }
  }

  /** The profile the compiler tries predicates on. */
  const EMPTY_PROFILE := Profile(map["derived" := JObj(map[]), "location" := JObj(map[]),
                                     "industries" := JList([]), "tools_technologies" := JList([])],
                                 [], None, [], [], [])

  /** One evaluation settles validity: accepted on the empty profile, never raising on any other. */
  lemma ValidOnceValidEverywhere(text: Text, rule: Predicate, other: Text, profile: Profile)
    ensures Evaluate(text, rule, EMPTY_PROFILE).Ok? <==> Evaluate(other, rule, profile).Ok?
    ensures Evaluate(text, rule, EMPTY_PROFILE).Err? ==>
              Evaluate(other, rule, profile) == Evaluate(text, rule, EMPTY_PROFILE)
  {
    EvaluateReports(text, rule, EMPTY_PROFILE);
    EvaluateReports(other, rule, profile);
  }

  lemma {:induction false} RelaxKeepsFault(rule: Predicate, tolerance: real)
    ensures Fault(Relax(rule, tolerance)) == Fault(rule)
    decreases rule, 1
  {
    match rule
    case All(ps) => RelaxEachKeepsFault(ps, tolerance);
    case Any(ps) => RelaxEachKeepsFault(ps, tolerance);
    case Not(_) =>
    case Leaf(_, _, _) =>
  }

  lemma {:induction false} RelaxEachKeepsFault(ps: seq<Predicate>, tolerance: real)
    ensures FirstFault(RelaxEach(ps, tolerance)) == FirstFault(ps)
    decreases ps, 0
  {
    if ps != [] {
      RelaxKeepsFault(ps[0], tolerance);
      RelaxEachKeepsFault(ps[1..], tolerance);
      assert RelaxEach(ps, tolerance)[1..] == RelaxEach(ps[1..], tolerance);
    }
  }

  /** The borderline check raises when, and only when, the strict check does. */
  lemma BorderlineReports(text: Text, rule: Predicate, profile: Profile, tolerance: Option<real>)
    ensures Reports(EvaluateWithBorderline(text, rule, profile, tolerance), Fault(rule))
  {
    EvaluateReports(text, rule, profile);
    if tolerance.Some? {
      RelaxKeepsFault(rule, tolerance.value);
      EvaluateReports(text, Relax(rule, tolerance.value), profile);
    }
  }

  // ----- facts that were missing -----

  predicate ExistsFree(rule: Predicate) {
    match rule
    case All(ps) => forall i :: 0 <= i < |ps| ==> ExistsFree(ps[i])
    case Any(ps) => forall i :: 0 <= i < |ps| ==> ExistsFree(ps[i])
    case Not(p) => ExistsFree(p)
    case Leaf(_, op, _) => !op.Exists?
  }

  /** Everything the first profile states, the second states in the same way. */
  ghost predicate Extends(text: Text, more: Profile, less: Profile) {
    forall path | Registered(path) && Resolve(text, less, path).Some? ::
      Resolve(text, more, path) == Resolve(text, less, path)
  }

  ghost predicate Decides(t: Tri, more: Tri) {
    t == Unknown || t == more
  }

  ghost predicate EachDecides(ts: seq<Tri>, more: seq<Tri>) {
    |ts| == |more| && forall i :: 0 <= i < |ts| ==> Decides(ts[i], more[i])
  }

  lemma CombinationsDecide(ts: seq<Tri>, more: seq<Tri>)
    requires EachDecides(ts, more)
    ensures Decides(Conjunction(ts), Conjunction(more))
    ensures Decides(Disjunction(ts), Disjunction(more))
  {
    if Fail in ts {
      var i :| 0 <= i < |ts| && ts[i] == Fail;
      assert more[i] == Fail;
    }
    if Pass in ts {
      var i :| 0 <= i < |ts| && ts[i] == Pass;
      assert more[i] == Pass;
    }
    if Unknown !in ts {
      assert ts == more;
    }
  }

  /** Filling in what a profile left out never flips a decided result, if nothing asks `exists`. */
  lemma {:induction false} NewFactsKeepDecisions(text: Text, rule: Predicate, less: Profile, more: Profile)
    requires ExistsFree(rule) && Extends(text, more, less) && Fault(rule) == None
    ensures Evaluate(text, rule, less).Ok? && Evaluate(text, rule, more).Ok?
    ensures Decides(Evaluate(text, rule, less).value, Evaluate(text, rule, more).value)
    decreases rule, 1
  {
    EvaluateReports(text, rule, less);
    EvaluateReports(text, rule, more);
    match rule
    case All(ps) =>
      EachKeepsDecisions(text, ps, less, more);
      CombinationsDecide(EvaluateEach(text, ps, less).value, EvaluateEach(text, ps, more).value);
    case Any(ps) =>
      EachKeepsDecisions(text, ps, less, more);
      CombinationsDecide(EvaluateEach(text, ps, less).value, EvaluateEach(text, ps, more).value);
    case Not(p) => NewFactsKeepDecisions(text, p, less, more);
    case Leaf(_, _, _) =>
  }

  lemma {:induction false} EachKeepsDecisions(text: Text, ps: seq<Predicate>, less: Profile, more: Profile)
    requires forall i :: 0 <= i < |ps| ==> ExistsFree(ps[i])
    requires Extends(text, more, less) && FirstFault(ps) == None
    ensures EvaluateEach(text, ps, less).Ok? && EvaluateEach(text, ps, more).Ok?
    ensures EachDecides(EvaluateEach(text, ps, less).value, EvaluateEach(text, ps, more).value)
    decreases ps, 0
  {
    if ps != [] {
      NewFactsKeepDecisions(text, ps[0], less, more);
      EachKeepsDecisions(text, ps[1..], less, more);
    }
  }

  /** `exists` is the operator that cannot promise this: stating its field turns fail into pass. */
  lemma ExistsFlips(text: Text, field: string, value: Json, less: Profile, more: Profile)
    requires field != "" && Registered(field)
    requires Resolve(text, less, field).None? && Resolve(text, more, field).Some?
    ensures Evaluate(text, Leaf(field, Exists, value), less) == Ok(Fail)
    ensures Evaluate(text, Leaf(field, Exists, value), more) == Ok(Pass)
    ensures Evaluate(text, Not(Leaf(field, Exists, value)), less) == Ok(Pass)
    ensures Evaluate(text, Not(Leaf(field, Exists, value)), more) == Ok(Fail)
  {
  }

  // ----- tolerance -----

  function Rank(t: Tri): nat {
    match t
    case Fail => 0
    case Unknown => 1
    case Pass => 2
  }

  /** No ordering test outside a negation has a negative numeric threshold. */
  predicate NonNegativeThresholds(rule: Predicate) {
    match rule
    case All(ps) => forall i :: 0 <= i < |ps| ==> NonNegativeThresholds(ps[i])
    case Any(ps) => forall i :: 0 <= i < |ps| ==> NonNegativeThresholds(ps[i])
    case Not(_) => true
    case Leaf(_, op, value) => op.Ordering() && value.JNum? ==> value.n >= 0.0
  }

  lemma ThresholdsMove(n: real, t: real, u: real)
    requires n >= 0.0 && t <= u
    ensures Lowered(n, u) <= Lowered(n, t)
    ensures Raised(n, t) <= Raised(n, u)
  {
    assert n * (u - t) >= 0.0;
  }

  ghost predicate EachAtMost(ts: seq<Tri>, us: seq<Tri>) {
    |ts| == |us| && forall i :: 0 <= i < |ts| ==> Rank(ts[i]) <= Rank(us[i])
  }

  lemma CombinationsMonotone(ts: seq<Tri>, us: seq<Tri>)
    requires EachAtMost(ts, us)
    ensures Rank(Conjunction(ts)) <= Rank(Conjunction(us))
    ensures Rank(Disjunction(ts)) <= Rank(Disjunction(us))
  {
    if Fail in us {
      var i :| 0 <= i < |us| && us[i] == Fail;
      assert ts[i] == Fail;
    }
    if Unknown in us {
      var i :| 0 <= i < |us| && us[i] == Unknown;
      assert ts[i] == Fail || ts[i] == Unknown;
    }
    if Pass in ts {
      var i :| 0 <= i < |ts| && ts[i] == Pass;
      assert us[i] == Pass;
    }
    if Unknown in ts {
      var i :| 0 <= i < |ts| && ts[i] == Unknown;
      assert us[i] == Unknown || us[i] == Pass;
    }
  }

  lemma OrderedMonotone(text: Text, value: Json, op: Op, a: real, b: real)
    requires op.Ordering()
    requires if op.Greater? || op.AtLeast? then b <= a else a <= b
    ensures Rank(Ordered(text, value, op, JNum(a))) <= Rank(Ordered(text, value, op, JNum(b)))
  {
  }

  lemma CompareMonotone(text: Text, found: Json, leaf: Predicate, t: real, u: real)
    requires leaf.Leaf? && NonNegativeThresholds(leaf) && !leaf.op.Unsupported? && 0.0 <= t <= u
    ensures Rank(Compare(text, found, leaf.op, RelaxLeaf(leaf, t).value))
         <= Rank(Compare(text, found, leaf.op, RelaxLeaf(leaf, u).value))
  {
    if leaf.op.Ordering() && leaf.value.JNum? {
      ThresholdsMove(leaf.value.n, t, u);
      OrderedMonotone(text, found, leaf.op, RelaxLeaf(leaf, t).value.n, RelaxLeaf(leaf, u).value.n);
    } else {
      assert RelaxLeaf(leaf, t) == RelaxLeaf(leaf, u);
    }
  }

  lemma RelaxLeafMonotone(text: Text, leaf: Predicate, profile: Profile, t: real, u: real)
    requires leaf.Leaf? && NonNegativeThresholds(leaf) && LeafFault(leaf.field, leaf.op) == None
    requires 0.0 <= t <= u
    ensures
      var a := EvaluateLeaf(text, leaf.field, leaf.op, RelaxLeaf(leaf, t).value, profile);
      var b := EvaluateLeaf(text, leaf.field, leaf.op, RelaxLeaf(leaf, u).value, profile);
      a.Ok? && b.Ok? && Rank(a.value) <= Rank(b.value)
  {
    match Resolve(text, profile, leaf.field)
    case None =>
    case Some(found) => CompareMonotone(text, found, leaf, t, u);
  }

  /** More tolerance never lowers a result. */
  lemma {:induction false} RelaxMonotone(text: Text, rule: Predicate, profile: Profile, t: real, u: real)
    requires NonNegativeThresholds(rule) && Fault(rule) == None && 0.0 <= t <= u
    ensures Evaluate(text, Relax(rule, t), profile).Ok? && Evaluate(text, Relax(rule, u), profile).Ok?
    ensures Rank(Evaluate(text, Relax(rule, t), profile).value) <= Rank(Evaluate(text, Relax(rule, u), profile).value)
    decreases rule, 1
  {
    RelaxKeepsFault(rule, t);
    RelaxKeepsFault(rule, u);
    EvaluateReports(text, Relax(rule, t), profile);
    EvaluateReports(text, Relax(rule, u), profile);
    match rule
    case All(ps) =>
      RelaxEachMonotone(text, ps, profile, t, u);
      CombinationsMonotone(EvaluateEach(text, RelaxEach(ps, t), profile).value,
                           EvaluateEach(text, RelaxEach(ps, u), profile).value);
    case Any(ps) =>
      RelaxEachMonotone(text, ps, profile, t, u);
      CombinationsMonotone(EvaluateEach(text, RelaxEach(ps, t), profile).value,
                           EvaluateEach(text, RelaxEach(ps, u), profile).value);
    case Not(_) =>
    case Leaf(_, _, _) => RelaxLeafMonotone(text, rule, profile, t, u);
  }

  lemma {:induction false} RelaxEachMonotone(text: Text, ps: seq<Predicate>, profile: Profile, t: real, u: real)
    requires forall i :: 0 <= i < |ps| ==> NonNegativeThresholds(ps[i])
    requires FirstFault(ps) == None && 0.0 <= t <= u
    ensures EvaluateEach(text, RelaxEach(ps, t), profile).Ok? && EvaluateEach(text, RelaxEach(ps, u), profile).Ok?
    ensures EachAtMost(EvaluateEach(text, RelaxEach(ps, t), profile).value,
                       EvaluateEach(text, RelaxEach(ps, u), profile).value)
    decreases ps, 0
  {
    if ps != [] {
      RelaxMonotone(text, ps[0], profile, t, u);
      RelaxEachMonotone(text, ps[1..], profile, t, u);
      assert RelaxEach(ps, t)[1..] == RelaxEach(ps[1..], t);
      assert RelaxEach(ps, u)[1..] == RelaxEach(ps[1..], u);
    }
  }

  lemma {:induction false} RelaxByNothing(rule: Predicate)
    ensures Relax(rule, 0.0) == rule
    decreases rule, 1
  {
    match rule
    case All(ps) => RelaxEachByNothing(ps);
    case Any(ps) => RelaxEachByNothing(ps);
    case Not(_) =>
    case Leaf(_, _, _) =>
  }

  lemma {:induction false} RelaxEachByNothing(ps: seq<Predicate>)
    ensures RelaxEach(ps, 0.0) == ps
    decreases ps, 0
  {
    if ps != [] {
      RelaxByNothing(ps[0]);
      RelaxEachByNothing(ps[1..]);
    }
  }

  /** Relaxing a rule never makes it harder to satisfy. */
  lemma RelaxNeverLowers(text: Text, rule: Predicate, profile: Profile, tolerance: real)
    requires NonNegativeThresholds(rule) && Fault(rule) == None && tolerance >= 0.0
    ensures Evaluate(text, rule, profile).Ok? && Evaluate(text, Relax(rule, tolerance), profile).Ok?
    ensures Rank(Evaluate(text, rule, profile).value) <= Rank(Evaluate(text, Relax(rule, tolerance), profile).value)
  {
    RelaxByNothing(rule);
    RelaxMonotone(text, rule, profile, 0.0, tolerance);
  }

  /** A failure that is borderline within one tolerance is borderline within any larger one. */
  lemma BorderlineMonotone(text: Text, rule: Predicate, profile: Profile, t: real, u: real)
    requires NonNegativeThresholds(rule) && Fault(rule) == None && 0.0 <= t <= u
    ensures
      var tight := EvaluateWithBorderline(text, rule, profile, Some(t));
      var wide := EvaluateWithBorderline(text, rule, profile, Some(u));
      tight.Ok? && wide.Ok? && tight.value.0 == wide.value.0 && (tight.value.1 ==> wide.value.1)
  {
    BorderlineReports(text, rule, profile, Some(t));
    BorderlineReports(text, rule, profile, Some(u));
    RelaxMonotone(text, rule, profile, t, u);
  }

  /** What an ordering test says of a number, before and after its threshold is relaxed. */
  function Strictly(text: Text, op: Op, n: real, v: real): Tri
    requires op.Ordering()
  {
    Compare(text, JNum(v), op, JNum(n))
  }

  function Relaxed(text: Text, op: Op, n: real, t: real, v: real): Tri
    requires op.Ordering()
  {
    Compare(text, JNum(v), op, RelaxLeaf(Leaf("", op, JNum(n)), t).value)
  }

  lemma ThresholdKept(text: Text, op: Op, n: real, t: real, v: real)
    requires op.Ordering() && n >= 0.0 && t >= 0.0
    ensures Rank(Strictly(text, op, n, v)) <= Rank(Relaxed(text, op, n, t, v))
  {
    ThresholdsMove(n, 0.0, t);
    OrderedMonotone(text, JNum(v), op, n, RelaxLeaf(Leaf("", op, JNum(n)), t).value.n);
  }

  /** A number that passes the test as written and fails it relaxed. */
  function LostNumber(op: Op, n: real, t: real): real {
    match op
    case Greater => Lowered(n, t)
    case Less => Raised(n, t)
    case _ => n
  }

  lemma NegativeThresholdLoses(text: Text, op: Op, n: real, t: real)
    requires op.Ordering() && n < 0.0 < t
    ensures Strictly(text, op, n, LostNumber(op, n, t)) == Pass
    ensures Relaxed(text, op, n, t, LostNumber(op, n, t)) == Fail
  {
    assert n * t < 0.0;
    assert Lowered(n, t) == n - n * t && Raised(n, t) == n + n * t;
  }

  /** Relaxing an ordering test lowers it for no number whatever exactly when its threshold is not negative. */
  lemma RelaxLiftsExactly(text: Text, op: Op, n: real, t: real)
    requires op.Ordering() && t > 0.0
    ensures (forall v :: Rank(Strictly(text, op, n, v)) <= Rank(Relaxed(text, op, n, t, v))) <==> n >= 0.0
  {
    hide Strictly, Relaxed, LostNumber;
    if n >= 0.0 {
      forall v
        ensures Rank(Strictly(text, op, n, v)) <= Rank(Relaxed(text, op, n, t, v))
      {
        ThresholdKept(text, op, n, t, v);
      }
    } else {
      NegativeThresholdLoses(text, op, n, t);
      var v := LostNumber(op, n, t);
      assert Rank(Strictly(text, op, n, v)) > Rank(Relaxed(text, op, n, t, v));
    }
  }

  /** The rule writers' slip that shows on stored profiles: months, counts and ranks are never negative. */
  predicate LosesStored(op: Op, n: real, t: real) {
    n < 0.0 && ((op.Greater? && t >= 1.0) || (op.AtLeast? && t > 1.0))
  }

  lemma StoredNumberKept(text: Text, op: Op, n: real, t: real, v: real)
    requires op.Ordering() && v >= 0.0 && n < 0.0 < t && !LosesStored(op, n, t)
    ensures Rank(Strictly(text, op, n, v)) <= Rank(Relaxed(text, op, n, t, v))
  {
    SignOfLowered(n, t);
    hide Lowered;
  }

  lemma SignOfLowered(n: real, t: real)
    requires n < 0.0
    ensures Lowered(n, t) < 0.0 <==> t < 1.0
    ensures Lowered(n, t) == 0.0 <==> t == 1.0
  {
    if t < 1.0 {
      assert n * (1.0 - t) < 0.0;
    } else if t > 1.0 {
      assert n * (1.0 - t) > 0.0;
    }
  }

  lemma ZeroIsLost(text: Text, op: Op, n: real, t: real)
    requires op.Ordering() && LosesStored(op, n, t)
    ensures Strictly(text, op, n, 0.0) == Pass && Relaxed(text, op, n, t, 0.0) == Fail
  {
    SignOfLowered(n, t);
    hide Lowered;
  }

  /** On numbers that are never negative, it takes a lower bound below zero relaxed by its whole size or more. */
  lemma RelaxLiftsStoredExactly(text: Text, op: Op, n: real, t: real)
    requires op.Ordering() && t > 0.0
    ensures (forall v :: v >= 0.0 ==> Rank(Strictly(text, op, n, v)) <= Rank(Relaxed(text, op, n, t, v)))
       <==> !LosesStored(op, n, t)
  {
    hide Strictly, Relaxed;
    if LosesStored(op, n, t) {
      ZeroIsLost(text, op, n, t);
      assert Rank(Strictly(text, op, n, 0.0)) > Rank(Relaxed(text, op, n, t, 0.0));
    } else {
      forall v | v >= 0.0
        ensures Rank(Strictly(text, op, n, v)) <= Rank(Relaxed(text, op, n, t, v))
      {
        if n >= 0.0 {
          ThresholdKept(text, op, n, t, v);
        } else {
          StoredNumberKept(text, op, n, t, v);
        }
      }
    }
  }
}
