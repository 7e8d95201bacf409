/** Stage 5 selection (screening/selection.py): who gets the expensive second look, and why. */
module Selection {
  import opened Applications
  import opened Wrappers
  import Integers
  import opened Sorting
  import opened Sums
  import opened Spec
  import opened Scoring

  datatype Reason = DecisionBand | BorderlineHardFilter | HardUnverified | LowConfidenceHeavy

  datatype Preliminary = Preliminary(id: AppId, result: ScoreResult, verdicts: Verdicts, borderline: bool)

  datatype Policy = Policy(
    topK: nat, bandExtra: nat, confidenceThreshold: real, weightThreshold: real, cap: Option<nat>)

  // ----- how much a requirement weighs -----

  function Find(reqs: seq<Requirement>, id: string): Option<Requirement> {
    if reqs == [] then None else if reqs[0].reqId == id then Some(reqs[0]) else Find(reqs[1..], id)
  }

  function SiblingWeight(category: string): Requirement -> real {
    (req: Requirement) => if req.category == category && req.kind == Scored then req.weight else 0.0
  }

  function OrOne(total: real): real {
    if total == 0.0 then 1.0 else total
  }

  /** A gate always matters; a scored requirement carries its part of its category's weight. */
  function WeightShare(spec: EvaluationSpec, id: string): real {
    match Find(spec.requirements, id)
    case None => 0.0
    case Some(req) =>
      if req.kind == Hard then 1.0
      else if req.kind != Scored then 0.0
      else SpecWeight(spec, req.category) * (req.weight / OrOne(Sum(spec.requirements, SiblingWeight(req.category))))
  }

  // ----- reasons to be unsure -----

  predicate HedgedOn(spec: EvaluationSpec, policy: Policy, verdicts: Verdicts, id: string)
    requires id in verdicts
  {
    && verdicts[id].source == Some(ByLight)
    && WeightShare(spec, id) >= policy.weightThreshold
    && EffectiveConfidence(verdicts[id]) < policy.confidenceThreshold
  }

  predicate Hedged(spec: EvaluationSpec, policy: Policy, p: Preliminary) {
    exists id :: id in p.verdicts && HedgedOn(spec, policy, p.verdicts, id)
  }

  /** One reason for one candidate, with what orders the queue: severity, then score, then id. */
  datatype Flagged = Flagged(severity: nat, score: real, id: AppId, reason: Reason)

  function FlagIf(p: Preliminary, condition: bool, severity: nat, reason: Reason): seq<Flagged> {
    if condition then [Flagged(severity, p.result.finalScore, p.id, reason)] else []
  }

  function Uncertainty(spec: EvaluationSpec, policy: Policy, p: Preliminary): seq<Flagged> {
    FlagIf(p, p.borderline, 0, BorderlineHardFilter)
    + FlagIf(p, p.result.gate.Passes() && p.result.gate.unverified != [], 1, HardUnverified)
    + FlagIf(p, Hedged(spec, policy, p), 2, LowConfidenceHeavy)
  }

  function AllFlags(spec: EvaluationSpec, policy: Policy, prelims: seq<Preliminary>): seq<Flagged> {
    if prelims == [] then []
    else AllFlags(spec, policy, prelims[..|prelims| - 1]) + Uncertainty(spec, policy, prelims[|prelims| - 1])
  }

  predicate NoLater(a: Flagged, b: Flagged) {
    || a.severity < b.severity
    || (a.severity == b.severity && (a.score > b.score || (a.score == b.score && a.id.order <= b.id.order)))
  }

  predicate ScoresAtLeast(a: Preliminary, b: Preliminary) {
    a.result.finalScore >= b.result.finalScore
  }

  // ----- picking -----

  /** Who is in, in order of admission, and the reasons each one carries. */
  datatype Chosen = Chosen(order: seq<AppId>, reasons: map<AppId, seq<Reason>>)

  const NOBODY := Chosen([], map[])

  /** An admitted candidate gets every reason once; a newcomer gets in only when admitted. */
  function Pick(chosen: Chosen, id: AppId, reason: Reason, admit: bool): Chosen {
    if id in chosen.reasons then
      if reason in chosen.reasons[id] then chosen
      else chosen.(reasons := chosen.reasons[id := chosen.reasons[id] + [reason]])
    else if admit then Chosen(chosen.order + [id], chosen.reasons[id := [reason]])
    else chosen
  }

  predicate Room(chosen: Chosen, id: AppId, cap: Option<nat>) {
    cap == None || |chosen.order| < cap.value || id in chosen.reasons
  }

  function PickNext(chosen: Chosen, flag: Flagged, cap: Option<nat>): Chosen {
    Pick(chosen, flag.id, flag.reason, Room(chosen, flag.id, cap))
  }

  function PickAll(base: Chosen, flags: seq<Flagged>, cap: Option<nat>): Chosen {
    if flags == [] then base
    else PickNext(PickAll(base, flags[..|flags| - 1], cap), flags[|flags| - 1], cap)
  }

  function Passers(prelims: seq<Preliminary>): seq<Preliminary> {
    if prelims == [] then []
    else
      var last := prelims[|prelims| - 1];
      Passers(prelims[..|prelims| - 1]) + if last.result.gate.Passes() then [last] else []
  }

  /** The decision band: the best of those who pass, up to the cut-off, ties in the order given. */
  function DecisionBandOf(policy: Policy, prelims: seq<Preliminary>): seq<Preliminary> {
    var ranked := Sort(ScoresAtLeast, Passers(prelims));
    ranked[..Integers.Min(policy.topK + policy.bandExtra, |ranked|)]
  }

  function BandFlags(band: seq<Preliminary>): seq<Flagged> {
    if band == [] then []
    else
      var last := band[|band| - 1];
      BandFlags(band[..|band| - 1]) + [Flagged(0, last.result.finalScore, last.id, DecisionBand)]
  }

  function Queue(spec: EvaluationSpec, policy: Policy, prelims: seq<Preliminary>): seq<Flagged> {
    Sort(NoLater, AllFlags(spec, policy, prelims))
  }

  function Selected(spec: EvaluationSpec, policy: Policy, prelims: seq<Preliminary>): Chosen {
    PickAll(PickAll(NOBODY, BandFlags(DecisionBandOf(policy, prelims)), None), Queue(spec, policy, prelims), policy.cap)
  }

  method PickBand(ranked: seq<Preliminary>, cutoff: nat) returns (chosen: Chosen)
    ensures chosen == PickAll(NOBODY, BandFlags(ranked[..Integers.Min(cutoff, |ranked|)]), None)
  {
    hide Pick;
    chosen := NOBODY;
    for rank := 0 to |ranked|
      invariant chosen == PickAll(NOBODY, BandFlags(ranked[..Integers.Min(cutoff, rank)]), None)
    {
      if rank < cutoff {
        BandSnoc(ranked[..rank], ranked[rank]);
        assert ranked[..rank + 1] == ranked[..rank] + [ranked[rank]];
        chosen := Pick(chosen, ranked[rank].id, DecisionBand, true);
      }
    }
  }

  method SelectForDeep(spec: EvaluationSpec, policy: Policy, prelims: seq<Preliminary>) returns (chosen: Chosen)
    ensures chosen == Selected(spec, policy, prelims)
  {
    hide Uncertainty, Pick, Sort;
    var passed: seq<Preliminary> := [];
    for i := 0 to |prelims|
      invariant passed == Passers(prelims[..i])
    {
      assert prelims[..i + 1][..i] == prelims[..i];
      if prelims[i].result.gate.Passes() { passed := passed + [prelims[i]]; }
    }
    assert prelims[..|prelims|] == prelims;
    var ranked := Sort(ScoresAtLeast, passed);
    chosen := PickBand(ranked, policy.topK + policy.bandExtra);
    var flagged: seq<Flagged> := [];
    for i := 0 to |prelims|
      invariant flagged == AllFlags(spec, policy, prelims[..i])
    {
      assert prelims[..i + 1][..i] == prelims[..i];
      flagged := flagged + Uncertainty(spec, policy, prelims[i]);
    }
    assert prelims[..|prelims|] == prelims;
    flagged := Sort(NoLater, flagged);
    ghost var band := chosen;
    for i := 0 to |flagged|
      invariant chosen == PickAll(band, flagged[..i], policy.cap)
    {
      assert flagged[..i + 1][..i] == flagged[..i];
      var room := policy.cap == None || |chosen.order| < policy.cap.value || flagged[i].id in chosen.reasons;
      chosen := Pick(chosen, flagged[i].id, flagged[i].reason, room);
    }
    assert flagged[..|flagged|] == flagged;
  }

  lemma BandSnoc(band: seq<Preliminary>, next: Preliminary)
    ensures
      var flag := Flagged(0, next.result.finalScore, next.id, DecisionBand);
      && BandFlags(band + [next]) == BandFlags(band) + [flag]
      && PickAll(NOBODY, BandFlags(band + [next]), None)
         == Pick(PickAll(NOBODY, BandFlags(band), None), next.id, DecisionBand, true)
  {
    var flag := Flagged(0, next.result.finalScore, next.id, DecisionBand);
    assert (band + [next])[..|band|] == band;
    assert (BandFlags(band) + [flag])[..|BandFlags(band)|] == BandFlags(band);
  }
}
