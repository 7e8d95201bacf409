/** Self-consistency voting (screening/voting.py): several deep passes folded into one judgment each. */
module Voting {
  import opened Wrappers
  import opened Sorting
  import opened Sums
  import opened Rounding
  import opened Spec
  import A = Anchors

  datatype Judgment = Judgment(
    reqId: string, kind: VerdictKind, score: Option<real>, confidence: real, infoStatus: InfoStatus,
    evidence: seq<string>)

  /** How one requirement's pool came out. `excluded` counts the votes whose quotes were not found. */
  datatype Tally = Tally(agreement: real, excluded: nat)
  datatype Fold = Fold(judgment: Judgment, tally: Tally, flagged: bool)

  type Check = Judgment -> bool

  // ----- one requirement -----

  function Filter<T>(keep: T -> bool, xs: seq<T>): (out: seq<T>)
    ensures |out| <= |xs|
  {
    if xs == [] then []
    else Filter(keep, xs[..|xs| - 1]) + if keep(xs[|xs| - 1]) then [xs[|xs| - 1]] else []
  }

  /** Abstaining counts as it is; a verdict counts when the document contains its quotes. */
  function Counted(supported: Check): Check {
    (j: Judgment) => j.kind == Unknown || supported(j)
  }

  function Says(kind: VerdictKind): Check {
    (j: Judgment) => j.kind == kind
  }

  function Votes(pool: seq<Judgment>, kind: VerdictKind): nat {
    |Filter(Says(kind), pool)|
  }

  /** The most common verdict; of equally common ones, the first to come up. */
  function Leader(pool: seq<Judgment>, n: nat): VerdictKind
    requires 0 < n <= |pool|
  {
    if n == 1 then pool[0].kind
    else
      var best := Leader(pool, n - 1);
      if Votes(pool, pool[n - 1].kind) > Votes(pool, best) then pool[n - 1].kind else best
  }

  function Rank(kind: VerdictKind): Option<int> {
    match kind
    case NotMet => Some(0)
    case PartiallyMet => Some(1)
    case Met => Some(2)
    case Unknown => None
    case Disqualified => None
  }

  /** Two verdicts at least two ranks apart. */
  predicate SevereSplit(pool: seq<Judgment>) {
    exists i, j :: 0 <= i < |pool| && 0 <= j < |pool| && Rank(pool[i].kind).Some? && Rank(pool[j].kind).Some?
                   && Rank(pool[i].kind).value - Rank(pool[j].kind).value >= 2
  }

  function Scores(pool: seq<Judgment>): seq<real> {
    if pool == [] then []
    else
      var last := pool[|pool| - 1];
      Scores(pool[..|pool| - 1]) + if last.score.Some? then [last.score.value] else []
  }

  /** The middle score, the lower of the two middle ones when their number is even. */
  function MedianLow(scores: seq<real>): Option<real> {
    if scores == [] then None
    else
      SortPermutes(A.Ascending, scores);
      Some(Sort(A.Ascending, scores)[(|scores| - 1) / 2])
  }

  /** The first winner with that score, or the first winner. */
  function FirstWith(winners: seq<Judgment>, score: Option<real>, n: nat): Judgment
    requires winners != [] && n <= |winners|
    decreases |winners| - n
  {
    if n == |winners| then winners[0]
    else if winners[n].score == score then winners[n]
    else FirstWith(winners, score, n + 1)
  }

  function ConfidenceTerm(j: Judgment): real { j.confidence }

  /** What the majority claimed, tempered by how much of the pool it was. */
  function Tempered(total: real, winners: nat, agreement: real): real
    requires winners > 0
  {
    Round3(total / winners as real * agreement)
  }

  function Agreement(top: nat, size: nat): real
    requires size > 0
  {
    top as real / size as real
  }

  lemma {:induction false} FilterMembers<T>(keep: T -> bool, xs: seq<T>)
    ensures forall x :: x in Filter(keep, xs) <==> x in xs && keep(x)
  {
    if xs != [] {
      FilterMembers(keep, xs[..|xs| - 1]);
      assert xs == xs[..|xs| - 1] + [xs[|xs| - 1]];
    }
  }

  lemma {:induction false} LeaderVotes(pool: seq<Judgment>, n: nat)
    requires 0 < n <= |pool|
    ensures exists i :: 0 <= i < n && pool[i].kind == Leader(pool, n)
    ensures forall i :: 0 <= i < n ==> Votes(pool, pool[i].kind) <= Votes(pool, Leader(pool, n))
  {
    hide Votes;
    if n > 1 {
      LeaderVotes(pool, n - 1);
      var i :| 0 <= i < n - 1 && pool[i].kind == Leader(pool, n - 1);
      assert pool[n - 1].kind == Leader(pool, n) || pool[i].kind == Leader(pool, n);
    } else {
      assert pool[0].kind == Leader(pool, n);
    }
  }

  lemma WinnersExist(pool: seq<Judgment>)
    requires pool != []
    ensures Filter(Says(Leader(pool, |pool|)), pool) != []
  {
    LeaderVotes(pool, |pool|);
    FilterMembers(Says(Leader(pool, |pool|)), pool);
    var i :| 0 <= i < |pool| && pool[i].kind == Leader(pool, |pool|);
    assert pool[i] in pool;
  }

  function Choice(pool: seq<Judgment>): Judgment
    requires pool != []
  {
    WinnersExist(pool);
    var winners := Filter(Says(Leader(pool, |pool|)), pool);
    var chosen := FirstWith(winners, MedianLow(Scores(winners)), 0);
    chosen.(confidence := Tempered(Sum(winners, ConfidenceTerm), |winners|, Agreement(|winners|, |pool|)))
  }

  function Folded(all: seq<Judgment>, supported: Check): Fold
    requires all != []
  {
    var pool := Filter(Counted(supported), all);
    var excluded := |all| - |pool|;
    if pool == [] then Fold(all[0], Tally(0.0, excluded), true)
    else
      var top := Votes(pool, Leader(pool, |pool|));
      var tally := Tally(Round3(Agreement(top, |pool|)), excluded);
      if top * 2 <= |pool| then Fold(pool[0], tally, true)
      else Fold(Choice(pool), tally, SevereSplit(pool))
  }

  // ----- the whole vote -----

  /** One pass: what it judged, or a permanent failure of the call. */
  datatype Pass = Judged(judgments: seq<Judgment>) | CallFailed

  datatype Ballot = Ballot(
    judgments: seq<Judgment>, requested: nat, completed: nat, errors: nat, flagged: seq<string>,
    tallies: map<string, Tally>)

  function ForReq(id: string): Check {
    (j: Judgment) => j.reqId == id
  }

  function Pooled(outputs: seq<seq<Judgment>>, id: string): seq<Judgment> {
    if outputs == [] then []
    else Pooled(outputs[..|outputs| - 1], id) + Filter(ForReq(id), outputs[|outputs| - 1])
  }

  function Completed(passes: seq<Pass>): seq<seq<Judgment>> {
    if passes == [] then []
    else
      var last := passes[|passes| - 1];
      Completed(passes[..|passes| - 1]) + if last.Judged? then [last.judgments] else []
  }

  /** Requirement ids in the order in which they first come up. */
  function NamedIn(judgments: seq<Judgment>, before: seq<string>): seq<string> {
    if judgments == [] then before
    else
      var names, last := NamedIn(judgments[..|judgments| - 1], before), judgments[|judgments| - 1].reqId;
      if last in names then names else names + [last]
  }

  function Named(outputs: seq<seq<Judgment>>): seq<string> {
    if outputs == [] then [] else NamedIn(outputs[|outputs| - 1], Named(outputs[..|outputs| - 1]))
  }

  /** Running all passes; the very first one failing fails the candidate. */
  method DeepVote(passes: seq<Pass>, supported: Check) returns (ballot: Option<Ballot>)
    requires passes != []
    ensures ballot == None <==> passes[0] == CallFailed
    ensures ballot.Some? ==>
              var b, outputs := ballot.value, Completed(passes);
              && b.requested == |passes| && b.completed == |outputs| && b.completed + b.errors == b.requested
              && |b.judgments| == |Named(outputs)|
              && (forall k :: 0 <= k < |Named(outputs)| ==>
                    Recorded(outputs, supported, Named(outputs)[k], b.judgments[k], b.tallies, b.flagged))
              && (forall id :: id in b.flagged ==> id in Named(outputs))
  {
    var outputs: seq<seq<Judgment>>, errors := [], 0;
    for i := 0 to |passes|
      invariant outputs == Completed(passes[..i])
      invariant i > 0 ==> passes[0] != CallFailed && outputs != []
      invariant |outputs| + errors == i
    {
      assert passes[..i + 1][..i] == passes[..i];
      match passes[i] {
        case CallFailed =>
          if outputs == [] { return None; }
          errors := errors + 1;
        case Judged(judgments) =>
          outputs := outputs + [judgments];
      }
    }
    assert passes[..|passes|] == passes;
    var order := NameThem(outputs);
    NamedOnce(outputs);
    var merged, flagged, tallies := FoldEach(outputs, order, supported);
    ballot := Some(Ballot(merged, |passes|, |outputs|, errors, flagged, tallies));
  }

  method Gather(outputs: seq<seq<Judgment>>, id: string) returns (all: seq<Judgment>)
    ensures all == Pooled(outputs, id)
  {
    all := [];
    for o := 0 to |outputs|
      invariant all == Pooled(outputs[..o], id)
    {
      assert outputs[..o + 1][..o] == outputs[..o];
      all := all + Filter(ForReq(id), outputs[o]);
    }
    assert outputs[..|outputs|] == outputs;
  }

  lemma RecordedNow(outputs: seq<seq<Judgment>>, supported: Check, id: string, tallies: map<string, Tally>,
                    flagged: seq<string>)
    requires Pooled(outputs, id) != [] && id !in flagged
    ensures
      var fold := Folded(Pooled(outputs, id), supported);
      Recorded(outputs, supported, id, fold.judgment, tallies[id := fold.tally],
               if fold.flagged then flagged + [id] else flagged)
  {
  }

  lemma RecordedStill(outputs: seq<seq<Judgment>>, supported: Check, id: string, judgment: Judgment,
                      tallies: map<string, Tally>, flagged: seq<string>, next: string, tally: Tally)
    requires Recorded(outputs, supported, id, judgment, tallies, flagged) && next != id
    ensures Recorded(outputs, supported, id, judgment, tallies[next := tally], flagged)
    ensures Recorded(outputs, supported, id, judgment, tallies[next := tally], flagged + [next])
  {
    hide Folded, Pooled;
  }

  lemma NextIsNew(outputs: seq<seq<Judgment>>, k: nat)
    requires k < |Named(outputs)|
    ensures Named(outputs)[k] !in Named(outputs)[..k]
    ensures Named(outputs)[..k + 1] == Named(outputs)[..k] + [Named(outputs)[k]]
    ensures forall m :: 0 <= m < k ==> Named(outputs)[m] != Named(outputs)[k]
  {
    NamedMeaning(outputs);
    hide Named;
  }

  method FoldEach(outputs: seq<seq<Judgment>>, order: seq<string>, supported: Check)
    returns (merged: seq<Judgment>, flagged: seq<string>, tallies: map<string, Tally>)
    requires order == Named(outputs)
    ensures |merged| == |order|
    ensures forall m :: 0 <= m < |order| ==> Recorded(outputs, supported, order[m], merged[m], tallies, flagged)
    ensures forall id :: id in flagged ==> id in order
  {
    hide Folded, Pooled, Recorded, Named;
    merged, flagged, tallies := [], [], map[];
    for k := 0 to |order|
      invariant |merged| == k
      invariant forall m :: 0 <= m < k ==> Recorded(outputs, supported, order[m], merged[m], tallies, flagged)
      invariant forall id :: id in flagged ==> id in order[..k]
    {
      var id := order[k];
      NextIsNew(outputs, k);
      assert id in order;
      NamedHavePools(outputs, id);
      var all := Gather(outputs, id);
      var fold := Folded(all, supported);
      ghost var before, was := flagged, tallies;
      merged, tallies := merged + [fold.judgment], tallies[id := fold.tally];
      if fold.flagged { flagged := flagged + [id]; }
      RecordedNow(outputs, supported, id, was, before);
      forall m | 0 <= m < k
        ensures Recorded(outputs, supported, order[m], merged[m], tallies, flagged)
      {
        assert order[m] != id;
        RecordedStill(outputs, supported, order[m], merged[m], was, before, id, fold.tally);
      }
    }
    assert order[..|order|] == order;
  }

  /** What the ballot says about one requirement is the fold of everything the passes said about it. */
  ghost predicate Recorded(outputs: seq<seq<Judgment>>, supported: Check, id: string, judgment: Judgment,
                           tallies: map<string, Tally>, flagged: seq<string>)
  {
    && Pooled(outputs, id) != []
    && judgment == Folded(Pooled(outputs, id), supported).judgment
    && id in tallies && tallies[id] == Folded(Pooled(outputs, id), supported).tally
    && (id in flagged <==> Folded(Pooled(outputs, id), supported).flagged)
  }

  method NameThem(outputs: seq<seq<Judgment>>) returns (order: seq<string>)
    ensures order == Named(outputs)
  {
    order := [];
    for o := 0 to |outputs|
      invariant order == Named(outputs[..o])
    {
      assert outputs[..o + 1][..o] == outputs[..o];
      ghost var before := order;
      for j := 0 to |outputs[o]|
        invariant order == NamedIn(outputs[o][..j], before)
      {
        assert outputs[o][..j + 1][..j] == outputs[o][..j];
        if outputs[o][j].reqId !in order { order := order + [outputs[o][j].reqId]; }
      }
      assert outputs[o][..|outputs[o]|] == outputs[o];
    }
    assert outputs[..|outputs|] == outputs;
  }

  lemma {:induction false} NamedInMeaning(judgments: seq<Judgment>, before: seq<string>)
    requires Distinct(before)
    ensures Distinct(NamedIn(judgments, before))
    ensures forall id :: id in NamedIn(judgments, before) <==> id in before || Filter(ForReq(id), judgments) != []
  {
    if judgments != [] {
      NamedInMeaning(judgments[..|judgments| - 1], before);
    }
  }

  /** A requirement is named once, and exactly when some pass judged it. */
  lemma {:induction false} NamedMeaning(outputs: seq<seq<Judgment>>)
    ensures Distinct(Named(outputs))
    ensures forall id :: id in Named(outputs) <==> Pooled(outputs, id) != []
  {
    if outputs != [] {
      NamedMeaning(outputs[..|outputs| - 1]);
      NamedInMeaning(outputs[|outputs| - 1], Named(outputs[..|outputs| - 1]));
    }
  }

  lemma NamedOnce(outputs: seq<seq<Judgment>>)
    ensures Distinct(Named(outputs))
  {
    NamedMeaning(outputs);
  }

  lemma NamedHavePools(outputs: seq<seq<Judgment>>, id: string)
    requires id in Named(outputs)
    ensures Pooled(outputs, id) != []
  {
    NamedMeaning(outputs);
  }
}
