/** What selection guarantees about the band, the cap, the queue and the reasons. */
module SelectionLaws {
  import opened Applications
  import opened Wrappers
  import opened Sorting
  import opened Sums
  import opened Spec
  import opened Scoring
  import opened Selection

  // ----- picking, one flag after another -----

  ghost predicate Tidy(c: Chosen) {
    && Distinct(c.order)
    && (forall id :: id in c.order <==> id in c.reasons)
    && (forall id :: id in c.reasons ==> Distinct(c.reasons[id]))
  }

  lemma PickTidy(c: Chosen, flag: Flagged, cap: Option<nat>)
    requires Tidy(c)
    ensures Tidy(PickNext(c, flag, cap))
  {
  }

  lemma {:induction false} PickAllTidy(base: Chosen, flags: seq<Flagged>, cap: Option<nat>)
    requires Tidy(base)
    ensures Tidy(PickAll(base, flags, cap))
  {
    hide Tidy, PickNext;
    if flags != [] {
      PickAllTidy(base, flags[..|flags| - 1], cap);
      PickTidy(PickAll(base, flags[..|flags| - 1], cap), flags[|flags| - 1], cap);
    }
  }

  lemma PickAllSnoc(base: Chosen, flags: seq<Flagged>, cap: Option<nat>, n: nat)
    requires n < |flags|
    ensures PickAll(base, flags[..n + 1], cap) == PickNext(PickAll(base, flags[..n], cap), flags[n], cap)
  {
    assert flags[..n + 1][..n] == flags[..n];
  }

  ghost predicate Prefix<T>(a: seq<T>, b: seq<T>) {
    |a| <= |b| && b[..|a|] == a
  }

  /** Everybody chosen so far is still chosen, in the same place. */
  ghost predicate Extends(before: Chosen, after: Chosen) {
    Prefix(before.order, after.order) && before.reasons.Keys <= after.reasons.Keys
  }

  lemma PickExtends(c: Chosen, flag: Flagged, cap: Option<nat>)
    ensures Extends(c, PickNext(c, flag, cap))
  {
  }

  lemma ExtendsOnward(a: Chosen, b: Chosen, c: Chosen)
    requires Extends(a, b) && Extends(b, c)
    ensures Extends(a, c)
  {
  }

  /** Nobody is ever dropped again. */
  lemma {:induction false} PickingGrows(base: Chosen, flags: seq<Flagged>, cap: Option<nat>, n: nat, m: nat)
    requires n <= m <= |flags|
    ensures Extends(PickAll(base, flags[..n], cap), PickAll(base, flags[..m], cap))
    decreases m
  {
    hide PickAll, PickNext, Extends;
    if n < m {
      var before, after := PickAll(base, flags[..m - 1], cap), PickAll(base, flags[..m], cap);
      PickingGrows(base, flags, cap, n, m - 1);
      PickAllSnoc(base, flags, cap, m - 1);
      PickExtends(before, flags[m - 1], cap);
      ExtendsOnward(PickAll(base, flags[..n], cap), before, after);
    } else {
      ExtendsItself(PickAll(base, flags[..n], cap));
    }
  }

  lemma ExtendsItself(c: Chosen)
    ensures Extends(c, c)
  {
  }

  /** The queue stays within the cap, unless the band already exceeds it. */
  lemma {:induction false} WithinCap(base: Chosen, flags: seq<Flagged>, cap: nat)
    requires Tidy(base)
    ensures |PickAll(base, flags, Some(cap)).order| <= if cap > |base.order| then cap else |base.order|
  {
    if flags != [] {
      WithinCap(base, flags[..|flags| - 1], cap);
      PickAllTidy(base, flags[..|flags| - 1], Some(cap));
    }
  }

  ghost predicate HasFlag(flags: seq<Flagged>, id: AppId) {
    exists k :: 0 <= k < |flags| && flags[k].id == id
  }

  /** Everyone selected was there before or is in the queue. */
  lemma {:induction false} OnlyFlagged(base: Chosen, flags: seq<Flagged>, cap: Option<nat>, id: AppId)
    requires id in PickAll(base, flags, cap).reasons
    ensures id in base.reasons || HasFlag(flags, id)
  {
    if flags != [] {
      var init := flags[..|flags| - 1];
      if id in PickAll(base, init, cap).reasons {
        OnlyFlagged(base, init, cap, id);
        if HasFlag(init, id) {
          var k :| 0 <= k < |init| && init[k].id == id;
          assert flags[k].id == id;
        }
      }
    }
  }

  /** While there is room, nobody in the queue has been turned away. */
  lemma {:induction false} RoomMeansAdmitted(base: Chosen, flags: seq<Flagged>, cap: Option<nat>, id: AppId)
    requires Tidy(base)
    requires cap == None || |PickAll(base, flags, cap).order| < cap.value
    requires HasFlag(flags, id)
    ensures id in PickAll(base, flags, cap).reasons
  {
    var n := |flags| - 1;
    var before := PickAll(base, flags[..n], cap);
    assert flags[..n + 1] == flags;
    PickingGrows(base, flags, cap, n, n + 1);
    if flags[n].id != id {
      var k :| 0 <= k < |flags| && flags[k].id == id;
      assert flags[..n][k].id == id;
      RoomMeansAdmitted(base, flags[..n], cap, id);
    }
  }

  /** Someone in the queue is left out only when the cap has been reached, and then nobody comes in any more. */
  lemma TurnedAway(base: Chosen, flags: seq<Flagged>, cap: Option<nat>, k: nat)
    requires Tidy(base) && k < |flags|
    requires flags[k].id !in PickAll(base, flags, cap).reasons
    ensures cap.Some? && |PickAll(base, flags[..k], cap).order| >= cap.value
    ensures PickAll(base, flags[..k], cap).order == PickAll(base, flags, cap).order
  {
    var id, before := flags[k].id, PickAll(base, flags[..k], cap);
    assert flags[..|flags|] == flags;
    PickingGrows(base, flags, cap, k, |flags|);
    PickingGrows(base, flags, cap, k + 1, |flags|);
    PickAllSnoc(base, flags, cap, k);
    assert id !in before.reasons;
    assert !Room(before, id, cap);
    FullStaysFull(base, flags, cap, k, |flags|);
  }

  lemma {:induction false} FullStaysFull(base: Chosen, flags: seq<Flagged>, cap: Option<nat>, n: nat, m: nat)
    requires n <= m <= |flags| && cap.Some? && |PickAll(base, flags[..n], cap).order| >= cap.value
    ensures PickAll(base, flags[..m], cap).order == PickAll(base, flags[..n], cap).order
    decreases m
  {
    if n < m {
      FullStaysFull(base, flags, cap, n, m - 1);
      PickAllSnoc(base, flags, cap, m - 1);
      hide PickAll;
    }
  }

  // ----- reasons -----

  ghost predicate Carries(flags: seq<Flagged>, id: AppId, reason: Reason) {
    exists k :: 0 <= k < |flags| && flags[k].id == id && flags[k].reason == reason
  }

  ghost predicate HadReason(base: Chosen, id: AppId, reason: Reason) {
    id in base.reasons && reason in base.reasons[id]
  }

  lemma CarriesSnoc(flags: seq<Flagged>, id: AppId, reason: Reason)
    requires flags != []
    ensures Carries(flags, id, reason) <==>
              || Carries(flags[..|flags| - 1], id, reason)
              || (flags[|flags| - 1].id == id && flags[|flags| - 1].reason == reason)
  {
    var n := |flags| - 1;
    if Carries(flags[..n], id, reason) {
      var k :| 0 <= k < n && flags[..n][k].id == id && flags[..n][k].reason == reason;
      assert flags[k].id == id;
    }
    if Carries(flags, id, reason) {
      var k :| 0 <= k < |flags| && flags[k].id == id && flags[k].reason == reason;
      assert k < n ==> flags[..n][k].id == id;
    }
  }

  /** Everyone selected carries exactly the reasons that apply: the cap turns away people, never explanations. */
  lemma {:induction false} EveryReason(base: Chosen, flags: seq<Flagged>, cap: Option<nat>, id: AppId, reason: Reason)
    requires Tidy(base) && id in PickAll(base, flags, cap).reasons
    ensures reason in PickAll(base, flags, cap).reasons[id] <==>
              HadReason(base, id, reason) || Carries(flags, id, reason)
  {
    if flags != [] {
      var n := |flags| - 1;
      var before, last := PickAll(base, flags[..n], cap), flags[n];
      CarriesSnoc(flags, id, reason);
      if id in before.reasons {
        EveryReason(base, flags[..n], cap, id, reason);
      } else {
        assert last.id == id && (cap == None || |before.order| < cap.value);
        NotBefore(base, flags[..n], cap, id);
        CarriesHas(flags[..n], id, reason);
      }
    }
  }

  lemma NotBefore(base: Chosen, flags: seq<Flagged>, cap: Option<nat>, id: AppId)
    requires Tidy(base) && id !in PickAll(base, flags, cap).reasons
    requires cap == None || |PickAll(base, flags, cap).order| < cap.value
    ensures id !in base.reasons && !HasFlag(flags, id)
  {
    if HasFlag(flags, id) {
      RoomMeansAdmitted(base, flags, cap, id);
    }
    BaseStays(base, flags, cap);
  }

  lemma CarriesHas(flags: seq<Flagged>, id: AppId, reason: Reason)
    ensures Carries(flags, id, reason) ==> HasFlag(flags, id)
  {
  }

  lemma BaseStays(base: Chosen, flags: seq<Flagged>, cap: Option<nat>)
    ensures base.reasons.Keys <= PickAll(base, flags, cap).reasons.Keys
  {
    PickingGrows(base, flags, cap, 0, |flags|);
    assert flags[..0] == [] && flags[..|flags|] == flags;
  }

  // ----- the queue -----

  lemma NoLaterOrders()
    ensures TotalPreorder(NoLater)
  {
  }

  lemma {:induction false} FlagsMeaning(spec: EvaluationSpec, policy: Policy, prelims: seq<Preliminary>, flag: Flagged)
    ensures flag in AllFlags(spec, policy, prelims) <==>
              exists i :: 0 <= i < |prelims| && flag in Uncertainty(spec, policy, prelims[i])
  {
    hide Uncertainty;
    if prelims != [] {
      var n := |prelims| - 1;
      FlagsMeaning(spec, policy, prelims[..n], flag);
      if flag in AllFlags(spec, policy, prelims[..n]) {
        var i :| 0 <= i < n && flag in Uncertainty(spec, policy, prelims[..n][i]);
        assert flag in Uncertainty(spec, policy, prelims[i]);
      }
      if i :| 0 <= i < |prelims| && flag in Uncertainty(spec, policy, prelims[i]) {
        assert i < n ==> flag in Uncertainty(spec, policy, prelims[..n][i]);
      }
    }
  }

  lemma QueueMeaning(spec: EvaluationSpec, policy: Policy, prelims: seq<Preliminary>)
    ensures SortedBy(NoLater, Queue(spec, policy, prelims))
    ensures forall flag :: flag in Queue(spec, policy, prelims) <==>
              exists i :: 0 <= i < |prelims| && flag in Uncertainty(spec, policy, prelims[i])
  {
    hide Uncertainty;
    NoLaterOrders();
    SortSorts(NoLater, AllFlags(spec, policy, prelims));
    SortMembers(NoLater, AllFlags(spec, policy, prelims));
    forall flag
      ensures flag in Queue(spec, policy, prelims) <==>
                exists i :: 0 <= i < |prelims| && flag in Uncertainty(spec, policy, prelims[i])
    {
      FlagsMeaning(spec, policy, prelims, flag);
    }
  }

  // ----- the band -----

  ghost predicate Has(prelims: seq<Preliminary>, id: AppId) {
    exists i :: 0 <= i < |prelims| && prelims[i].id == id
  }

  lemma {:induction false} BandFlagsMeaning(band: seq<Preliminary>)
    ensures |BandFlags(band)| == |band|
    ensures forall i :: 0 <= i < |band| ==>
              BandFlags(band)[i].id == band[i].id && BandFlags(band)[i].reason == DecisionBand
  {
    if band != [] {
      BandFlagsMeaning(band[..|band| - 1]);
    }
  }

  ghost function BandChosen(policy: Policy, prelims: seq<Preliminary>): Chosen {
    PickAll(NOBODY, BandFlags(DecisionBandOf(policy, prelims)), None)
  }

  lemma {:induction false} SizeBounded(base: Chosen, flags: seq<Flagged>, cap: Option<nat>)
    ensures |PickAll(base, flags, cap).order| <= |base.order| + |flags|
  {
    if flags != [] {
      SizeBounded(base, flags[..|flags| - 1], cap);
    }
  }

  /** Before the queue is served, exactly the band is in, each member for that one reason. */
  lemma BandIsPicked(policy: Policy, prelims: seq<Preliminary>)
    ensures Tidy(BandChosen(policy, prelims))
    ensures |BandChosen(policy, prelims).order| <= |DecisionBandOf(policy, prelims)|
    ensures forall id :: id in BandChosen(policy, prelims).reasons <==> Has(DecisionBandOf(policy, prelims), id)
    ensures forall id, reason :: HadReason(BandChosen(policy, prelims), id, reason) <==>
              Has(DecisionBandOf(policy, prelims), id) && reason == DecisionBand
  {
    var band := DecisionBandOf(policy, prelims);
    var flags := BandFlags(band);
    hide DecisionBandOf, PickAll, BandFlags;
    PickAllTidy(NOBODY, flags, None);
    SizeBounded(NOBODY, flags, None);
    BandFlagsMeaning(band);
    forall id
      ensures id in PickAll(NOBODY, flags, None).reasons <==> Has(band, id)
    {
      if id in PickAll(NOBODY, flags, None).reasons {
        OnlyFlagged(NOBODY, flags, None, id);
        var k :| 0 <= k < |flags| && flags[k].id == id;
        assert band[k].id == id;
      }
      if Has(band, id) {
        var k :| 0 <= k < |band| && band[k].id == id;
        assert flags[k].id == id;
        RoomMeansAdmitted(NOBODY, flags, None, id);
      }
    }
    forall id, reason
      ensures HadReason(PickAll(NOBODY, flags, None), id, reason) <==> Has(band, id) && reason == DecisionBand
    {
      if Has(band, id) {
        EveryReason(NOBODY, flags, None, id, reason);
        var k :| 0 <= k < |band| && band[k].id == id;
        assert flags[k].id == id && flags[k].reason == DecisionBand;
      }
    }
  }

  /** Nobody outside the band who passes the gate scores higher than anybody in it. */
  lemma BandIsTheTop(policy: Policy, prelims: seq<Preliminary>, p: Preliminary, q: Preliminary)
    requires p in DecisionBandOf(policy, prelims) && q in Passers(prelims) && q !in DecisionBandOf(policy, prelims)
    ensures p.result.finalScore >= q.result.finalScore
    ensures |DecisionBandOf(policy, prelims)| == policy.topK + policy.bandExtra
  {
    var ranked := Sort(ScoresAtLeast, Passers(prelims));
    assert TotalPreorder(ScoresAtLeast);
    SortSorts(ScoresAtLeast, Passers(prelims));
    SortMembers(ScoresAtLeast, Passers(prelims));
    var n := |DecisionBandOf(policy, prelims)|;
    forall k | 0 <= k < n
      ensures ranked[k] in DecisionBandOf(policy, prelims)
    {
      assert DecisionBandOf(policy, prelims)[k] == ranked[k];
    }
    assert q in ranked;
    var i :| 0 <= i < n && ranked[..n][i] == p;
    var j :| 0 <= j < |ranked| && ranked[j] == q;
    assert ScoresAtLeast(ranked[i], ranked[j]);
  }

  // ----- the guarantees -----

  /** The whole decision band is selected, whatever the cap. */
  lemma WholeBandSelected(spec: EvaluationSpec, policy: Policy, prelims: seq<Preliminary>, p: Preliminary)
    requires p in DecisionBandOf(policy, prelims)
    ensures p.id in Selected(spec, policy, prelims).reasons
    ensures p.id in Selected(spec, policy, prelims).order
  {
    var band := DecisionBandOf(policy, prelims);
    var i :| 0 <= i < |band| && band[i] == p;
    hide DecisionBandOf, Queue, PickAll;
    BandIsPicked(policy, prelims);
    assert Has(band, p.id);
    BaseStays(BandChosen(policy, prelims), Queue(spec, policy, prelims), policy.cap);
    PickAllTidy(BandChosen(policy, prelims), Queue(spec, policy, prelims), policy.cap);
  }

  /** No more are selected than the cap allows, or than the band needs; and nobody is selected twice. */
  lemma SelectionIsCapped(spec: EvaluationSpec, policy: Policy, prelims: seq<Preliminary>)
    requires policy.cap.Some?
    ensures
      var n, band := |Selected(spec, policy, prelims).order|, |DecisionBandOf(policy, prelims)|;
      n <= if policy.cap.value > band then policy.cap.value else band
    ensures Distinct(Selected(spec, policy, prelims).order)
  {
    hide DecisionBandOf, Queue, PickAll;
    BandIsPicked(policy, prelims);
    WithinCap(BandChosen(policy, prelims), Queue(spec, policy, prelims), policy.cap.value);
    PickAllTidy(BandChosen(policy, prelims), Queue(spec, policy, prelims), policy.cap);
  }

  /** Everybody selected is in the band or has a reason to be unsure about. */
  lemma OnlyBandOrUnsure(spec: EvaluationSpec, policy: Policy, prelims: seq<Preliminary>, id: AppId)
    requires id in Selected(spec, policy, prelims).reasons
    ensures Has(DecisionBandOf(policy, prelims), id)
         || exists flag :: flag in Queue(spec, policy, prelims) && flag.id == id
  {
    hide DecisionBandOf, Queue, PickAll;
    BandIsPicked(policy, prelims);
    var queue := Queue(spec, policy, prelims);
    OnlyFlagged(BandChosen(policy, prelims), queue, policy.cap, id);
    if HasFlag(queue, id) {
      var k :| 0 <= k < |queue| && queue[k].id == id;
      assert queue[k] in queue;
    }
  }

  /** More severe, or as severe and better scored, or else the smaller id. */
  ghost predicate Sooner(a: Flagged, b: Flagged) {
    || a.severity < b.severity
    || (a.severity == b.severity && a.score > b.score)
    || (a.severity == b.severity && a.score == b.score && a.id.order < b.id.order)
  }

  /**
   Someone unsure is left out only when the cap is full, and then everyone admitted for being unsure
   stands strictly earlier in the queue: more severe, or as severe and better scored, or else by id.
   */
  lemma QueueIsServedInOrder(spec: EvaluationSpec, policy: Policy, prelims: seq<Preliminary>, out: Flagged,
                             admitted: AppId)
    requires out in Queue(spec, policy, prelims) && out.id !in Selected(spec, policy, prelims).reasons
    requires admitted in Selected(spec, policy, prelims).reasons && !Has(DecisionBandOf(policy, prelims), admitted)
    ensures policy.cap.Some? && |Selected(spec, policy, prelims).order| >= policy.cap.value
    ensures exists flag :: flag in Queue(spec, policy, prelims) && flag.id == admitted
                           && Sooner(flag, out)
  {
    hide DecisionBandOf, Queue, PickAll;
    BandIsPicked(policy, prelims);
    QueueMeaning(spec, policy, prelims);
    var base, queue := BandChosen(policy, prelims), Queue(spec, policy, prelims);
    var k :| 0 <= k < |queue| && queue[k] == out;
    TurnedAway(base, queue, policy.cap, k);
    PickAllTidy(base, queue, policy.cap);
    PickAllTidy(base, queue[..k], policy.cap);
    assert admitted in PickAll(base, queue, policy.cap).order;
    OnlyFlagged(base, queue[..k], policy.cap, admitted);
    var j :| 0 <= j < k && queue[..k][j].id == admitted;
    assert queue[j] in queue && NoLater(queue[j], queue[k]);
    SoonerMeaning(queue[j], queue[k]);
  }

  lemma SoonerMeaning(a: Flagged, b: Flagged)
    ensures a.id != b.id ==> (NoLater(a, b) <==> Sooner(a, b))
  {
  }

  ghost predicate DistinctIds(prelims: seq<Preliminary>) {
    forall i, j :: 0 <= i < j < |prelims| ==> prelims[i].id != prelims[j].id
  }

  /** Why a candidate may deserve deep analysis. */
  ghost predicate Applies(spec: EvaluationSpec, policy: Policy, prelims: seq<Preliminary>, p: Preliminary,
                          reason: Reason) {
    match reason
    case DecisionBand => p in DecisionBandOf(policy, prelims)
    case BorderlineHardFilter => p.borderline
    case HardUnverified => p.result.gate.Passes() && p.result.gate.unverified != []
    case LowConfidenceHeavy =>
      exists id :: id in p.verdicts && p.verdicts[id].source == Some(ByLight)
                   && WeightShare(spec, id) >= policy.weightThreshold
                   && EffectiveConfidence(p.verdicts[id]) < policy.confidenceThreshold
  }

  lemma HedgedMeaning(spec: EvaluationSpec, policy: Policy, p: Preliminary)
    ensures Hedged(spec, policy, p) <==> Applies(spec, policy, [], p, LowConfidenceHeavy)
  {
    hide WeightShare, EffectiveConfidence;
    if id :| id in p.verdicts && HedgedOn(spec, policy, p.verdicts, id) {
      assert p.verdicts[id].source == Some(ByLight);
    }
    if id :| id in p.verdicts && p.verdicts[id].source == Some(ByLight)
             && WeightShare(spec, id) >= policy.weightThreshold
             && EffectiveConfidence(p.verdicts[id]) < policy.confidenceThreshold {
      assert HedgedOn(spec, policy, p.verdicts, id);
    }
  }

  lemma UncertaintyMeaning(spec: EvaluationSpec, policy: Policy, p: Preliminary, reason: Reason)
    ensures (exists flag :: flag in Uncertainty(spec, policy, p) && flag.reason == reason) <==>
              reason != DecisionBand && Applies(spec, policy, [], p, reason)
    ensures forall flag :: flag in Uncertainty(spec, policy, p) ==>
              && flag.id == p.id && flag.score == p.result.finalScore
              && flag.severity == (match flag.reason
                                   case BorderlineHardFilter => 0
                                   case HardUnverified => 1
                                   case LowConfidenceHeavy => 2
                                   case DecisionBand => 3)
  {
    HedgedMeaning(spec, policy, p);
    hide Hedged, DecisionBandOf, WeightShare, EffectiveConfidence;
    var score := p.result.finalScore;
    if reason == BorderlineHardFilter && p.borderline {
      assert Flagged(0, score, p.id, reason) in Uncertainty(spec, policy, p);
    }
    if reason == HardUnverified && Applies(spec, policy, [], p, reason) {
      assert Flagged(1, score, p.id, reason) in Uncertainty(spec, policy, p);
    }
    if reason == LowConfidenceHeavy && Applies(spec, policy, [], p, reason) {
      assert Flagged(2, score, p.id, reason) in Uncertainty(spec, policy, p);
    }
  }

  lemma {:induction false} PassedMeaning(prelims: seq<Preliminary>)
    ensures forall p :: p in Passers(prelims) <==> p in prelims && p.result.gate.Passes()
  {
    if prelims != [] {
      PassedMeaning(prelims[..|prelims| - 1]);
      assert prelims == prelims[..|prelims| - 1] + [prelims[|prelims| - 1]];
    }
  }

  lemma BandWithin(policy: Policy, prelims: seq<Preliminary>, p: Preliminary)
    requires p in DecisionBandOf(policy, prelims)
    ensures p in prelims && p.result.gate.Passes()
  {
    SortMembers(ScoresAtLeast, Passers(prelims));
    PassedMeaning(prelims);
  }

  lemma SameId(prelims: seq<Preliminary>, p: Preliminary, q: Preliminary)
    requires DistinctIds(prelims) && p in prelims && q in prelims && p.id == q.id
    ensures p == q
  {
    var i :| 0 <= i < |prelims| && prelims[i] == p;
    var j :| 0 <= j < |prelims| && prelims[j] == q;
  }

  lemma InBand(policy: Policy, prelims: seq<Preliminary>, p: Preliminary)
    requires DistinctIds(prelims) && p in prelims
    ensures Has(DecisionBandOf(policy, prelims), p.id) <==> p in DecisionBandOf(policy, prelims)
  {
    var band := DecisionBandOf(policy, prelims);
    hide DecisionBandOf;
    if Has(band, p.id) {
      var i :| 0 <= i < |band| && band[i].id == p.id;
      BandWithin(policy, prelims, band[i]);
      SameId(prelims, band[i], p);
    }
  }

  lemma CarriesMeaning(spec: EvaluationSpec, policy: Policy, prelims: seq<Preliminary>, p: Preliminary, reason: Reason)
    requires DistinctIds(prelims) && p in prelims
    ensures Carries(Queue(spec, policy, prelims), p.id, reason) <==>
              reason != DecisionBand && Applies(spec, policy, [], p, reason)
  {
    var queue := Queue(spec, policy, prelims);
    QueueMeaning(spec, policy, prelims);
    UncertaintyMeaning(spec, policy, p, reason);
    hide Queue, Uncertainty, Applies;
    if Carries(queue, p.id, reason) {
      var k :| 0 <= k < |queue| && queue[k].id == p.id && queue[k].reason == reason;
      assert queue[k] in queue;
      var i :| 0 <= i < |prelims| && queue[k] in Uncertainty(spec, policy, prelims[i]);
      UncertaintyMeaning(spec, policy, prelims[i], reason);
      SameId(prelims, prelims[i], p);
    }
    if flag :| flag in Uncertainty(spec, policy, p) && flag.reason == reason {
      var i :| 0 <= i < |prelims| && prelims[i] == p;
      assert flag in queue;
      var k :| 0 <= k < |queue| && queue[k] == flag;
    }
  }

  /** Every selected candidate carries every reason that applies to it, and no other. */
  lemma EverySelectedExplained(spec: EvaluationSpec, policy: Policy, prelims: seq<Preliminary>, p: Preliminary,
                               reason: Reason)
    requires DistinctIds(prelims) && p in prelims && p.id in Selected(spec, policy, prelims).reasons
    ensures reason in Selected(spec, policy, prelims).reasons[p.id] <==> Applies(spec, policy, prelims, p, reason)
  {
    hide DecisionBandOf, Queue, PickAll, DistinctIds;
    BandIsPicked(policy, prelims);
    InBand(policy, prelims, p);
    CarriesMeaning(spec, policy, prelims, p, reason);
    EveryReason(BandChosen(policy, prelims), Queue(spec, policy, prelims), policy.cap, p.id, reason);
  }

  // ----- weights -----

  /** A gate weighs everything; what is neither gate nor scored, or not asked for, weighs nothing. */
  lemma ShareMeaning(spec: EvaluationSpec, id: string)
    ensures !Asked(spec.requirements, id) ==> WeightShare(spec, id) == 0.0
    ensures forall i :: 0 <= i < |spec.requirements| && UniqueIds(spec.requirements)
                        && spec.requirements[i].reqId == id ==>
              var kind := spec.requirements[i].kind;
              && (kind == Hard ==> WeightShare(spec, id) == 1.0)
              && (kind != Hard && kind != Scored ==> WeightShare(spec, id) == 0.0)
  {
    NotFound(spec.requirements, id);
    forall i | 0 <= i < |spec.requirements| && UniqueIds(spec.requirements) && spec.requirements[i].reqId == id
      ensures Find(spec.requirements, id) == Some(spec.requirements[i])
    {
      FindsIt(spec.requirements, i);
    }
  }

  /** Scored requirements of one category share its weight in proportion to their own. */
  lemma SharesInProportion(spec: EvaluationSpec, i: nat, j: nat)
    requires UniqueIds(spec.requirements) && i < |spec.requirements| && j < |spec.requirements|
    requires spec.requirements[i].kind == Scored && spec.requirements[j].kind == Scored
    requires spec.requirements[i].category == spec.requirements[j].category
    ensures WeightShare(spec, spec.requirements[i].reqId) * spec.requirements[j].weight
         == WeightShare(spec, spec.requirements[j].reqId) * spec.requirements[i].weight
  {
    var reqs := spec.requirements;
    var category := reqs[i].category;
    FindsIt(reqs, i);
    FindsIt(reqs, j);
    CrossShares(SpecWeight(spec, category), reqs[i].weight, reqs[j].weight,
                OrOne(Sum(reqs, SiblingWeight(category))));
  }

  lemma CrossShares(weight: real, a: real, b: real, whole: real)
    requires whole != 0.0
    ensures weight * (a / whole) * b == weight * (b / whole) * a
  {
    assert a / whole * b == b / whole * a;
  }

  lemma {:induction false} NotFound(reqs: seq<Requirement>, id: string)
    ensures !Asked(reqs, id) ==> Find(reqs, id) == None
  {
    if reqs != [] {
      NotFound(reqs[1..], id);
      if !Asked(reqs, id) {
        assert reqs[0].reqId != id;
        assert forall i :: 0 <= i < |reqs| - 1 ==> reqs[1..][i] == reqs[i + 1];
      }
    }
  }

  function ShareTerm(spec: EvaluationSpec, category: string): Requirement -> real {
    (req: Requirement) => if req.category == category && req.kind == Scored then WeightShare(spec, req.reqId) else 0.0
  }

  lemma {:induction false} FindsIt(reqs: seq<Requirement>, i: nat)
    requires UniqueIds(reqs) && i < |reqs|
    ensures Find(reqs, reqs[i].reqId) == Some(reqs[i])
  {
    if i > 0 {
      assert reqs[0].reqId != reqs[i].reqId;
      assert reqs[1..][i - 1] == reqs[i];
      FindsIt(reqs[1..], i - 1);
    }
  }

  lemma ShareIsScaled(weight: real, part: real, whole: real)
    requires whole != 0.0
    ensures weight * (part / whole) == Scale(weight / whole, part)
  {
  }

  lemma ScaleWhole(weight: real, whole: real)
    requires whole != 0.0
    ensures Scale(weight / whole, whole) == weight
  {
  }

  lemma ShareOf(spec: EvaluationSpec, category: string, i: nat)
    requires UniqueIds(spec.requirements) && i < |spec.requirements|
    requires Sum(spec.requirements, SiblingWeight(category)) != 0.0
    ensures
      var whole := Sum(spec.requirements, SiblingWeight(category));
      ShareTerm(spec, category)(spec.requirements[i])
      == Scale(SpecWeight(spec, category) / whole, SiblingWeight(category)(spec.requirements[i]))
  {
    var req := spec.requirements[i];
    var whole := Sum(spec.requirements, SiblingWeight(category));
    FindsIt(spec.requirements, i);
    if req.category == category && req.kind == Scored {
      ShareIsScaled(SpecWeight(spec, category), req.weight, whole);
    } else {
      assert Scale(SpecWeight(spec, category) / whole, 0.0) == 0.0;
    }
  }

  /** The shares of a category's scored requirements add up to the weight of the category. */
  lemma SharesAddUp(spec: EvaluationSpec, category: string)
    requires UniqueIds(spec.requirements) && Sum(spec.requirements, SiblingWeight(category)) != 0.0
    ensures Sum(spec.requirements, ShareTerm(spec, category)) == SpecWeight(spec, category)
  {
    var reqs, f, g := spec.requirements, SiblingWeight(category), ShareTerm(spec, category);
    var k := SpecWeight(spec, category) / Sum(reqs, f);
    forall req | req in reqs
      ensures g(req) == Scale(k, f(req))
    {
      var i :| 0 <= i < |reqs| && reqs[i] == req;
      ShareOf(spec, category, i);
    }
    SumScaled(reqs, f, g, k);
    ScaleWhole(SpecWeight(spec, category), Sum(reqs, f));
  }
}
