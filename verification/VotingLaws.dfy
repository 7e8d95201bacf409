/** Vote folding: what does not depend on the order of the votes, and what an unflagged result means. */
module VotingLaws {
  import opened Wrappers
  import opened Sorting
  import opened Sums
  import opened Rounding
  import opened Spec
  import opened Voting
  import A = Anchors

  // ----- counting -----

  lemma {:induction false} FilterMultiset(keep: Check, xs: seq<Judgment>, x: Judgment)
    ensures multiset(Filter(keep, xs))[x] == if keep(x) then multiset(xs)[x] else 0
  {
    if xs != [] {
      FilterMultiset(keep, xs[..|xs| - 1], x);
      assert xs == xs[..|xs| - 1] + [xs[|xs| - 1]];
    }
  }

  lemma FilterPermuted(keep: Check, a: seq<Judgment>, b: seq<Judgment>)
    requires multiset(a) == multiset(b)
    ensures multiset(Filter(keep, a)) == multiset(Filter(keep, b))
    ensures |Filter(keep, a)| == |Filter(keep, b)|
  {
    var p, q := multiset(Filter(keep, a)), multiset(Filter(keep, b));
    hide Filter;
    forall x
      ensures p[x] == q[x]
    {
      FilterMultiset(keep, a, x);
      FilterMultiset(keep, b, x);
    }
    assert p == q;
    assert |p| == |Filter(keep, a)| && |q| == |Filter(keep, b)|;
  }

  lemma SameMembers<T>(a: seq<T>, b: seq<T>)
    requires multiset(a) == multiset(b)
    ensures forall x :: x in a <==> x in b
    ensures |a| == |b|
  {
    assert |multiset(a)| == |a| && |multiset(b)| == |b|;
    forall x
      ensures x in a <==> x in b
    {
      assert x in a <==> x in multiset(a);
      assert x in b <==> x in multiset(b);
    }
  }

  lemma {:induction false} ScoresMultiset(pool: seq<Judgment>, r: real)
    ensures multiset(Scores(pool))[r] == |Filter((j: Judgment) => j.score == Some(r), pool)|
  {
    if pool != [] {
      ScoresMultiset(pool[..|pool| - 1], r);
    }
  }

  lemma MedianPermuted(a: seq<Judgment>, b: seq<Judgment>)
    requires multiset(a) == multiset(b)
    ensures MedianLow(Scores(a)) == MedianLow(Scores(b))
  {
    forall r
      ensures multiset(Scores(a))[r] == multiset(Scores(b))[r]
    {
      ScoresMultiset(a, r);
      ScoresMultiset(b, r);
      FilterPermuted((j: Judgment) => j.score == Some(r), a, b);
    }
    assert multiset(Scores(a)) == multiset(Scores(b));
    SameMembers(Scores(a), Scores(b));
    A.AscendingOrder();
    SortCongruent(A.Ascending, Scores(a), Scores(b));
  }

  /** The median is one of the scores, so some winner carries it. */
  lemma MedianIsScored(pool: seq<Judgment>)
    requires pool != []
    ensures FirstWith(pool, MedianLow(Scores(pool)), 0).score == MedianLow(Scores(pool))
    ensures FirstWith(pool, MedianLow(Scores(pool)), 0) in pool
  {
    var scores := Scores(pool);
    if scores == [] {
      NoScores(pool);
      FirstWithFinds(pool, None, 0, 0);
    } else {
      SortPermutes(A.Ascending, scores);
      SortMembers(A.Ascending, scores);
      var median := MedianLow(scores).value;
      assert median in Sort(A.Ascending, scores);
      ScoresMembers(pool, median);
      var i :| 0 <= i < |pool| && pool[i].score == Some(median);
      FirstWithFinds(pool, Some(median), 0, i);
    }
  }

  lemma {:induction false} NoScores(pool: seq<Judgment>)
    requires Scores(pool) == []
    ensures forall i :: 0 <= i < |pool| ==> pool[i].score == None
  {
    if pool != [] {
      NoScores(pool[..|pool| - 1]);
    }
  }

  lemma {:induction false} ScoresMembers(pool: seq<Judgment>, r: real)
    requires r in Scores(pool)
    ensures exists i :: 0 <= i < |pool| && pool[i].score == Some(r)
  {
    var n := |pool| - 1;
    if pool[n].score != Some(r) {
      ScoresMembers(pool[..n], r);
      var i :| 0 <= i < n && pool[..n][i].score == Some(r);
      assert pool[i].score == Some(r);
    }
  }

  lemma {:induction false} FirstWithFinds(winners: seq<Judgment>, score: Option<real>, n: nat, i: nat)
    requires n <= i < |winners| && winners[i].score == score
    ensures FirstWith(winners, score, n).score == score && FirstWith(winners, score, n) in winners
    decreases |winners| - n
  {
    if winners[n].score != score {
      FirstWithFinds(winners, score, n + 1, i);
    }
  }

  // ----- majorities -----

  ghost predicate Majority(pool: seq<Judgment>, kind: VerdictKind) {
    2 * Votes(pool, kind) > |pool|
  }

  lemma {:induction false} VotesApart(pool: seq<Judgment>, a: VerdictKind, b: VerdictKind)
    requires a != b
    ensures Votes(pool, a) + Votes(pool, b) <= |pool|
  {
    if pool != [] {
      VotesApart(pool[..|pool| - 1], a, b);
    }
  }

  lemma VotedFor(pool: seq<Judgment>, kind: VerdictKind)
    requires Votes(pool, kind) > 0
    ensures exists i :: 0 <= i < |pool| && pool[i].kind == kind
  {
    var voters := Filter(Says(kind), pool);
    FilterMembers(Says(kind), pool);
    assert voters[0] in voters;
  }

  /** The leader has a strict majority exactly when anybody has one, and then nobody else does. */
  lemma LeaderIsMajority(pool: seq<Judgment>, kind: VerdictKind)
    requires pool != [] && Majority(pool, kind)
    ensures Leader(pool, |pool|) == kind
  {
    hide Leader, Votes;
    var leader := Leader(pool, |pool|);
    LeaderVotes(pool, |pool|);
    VotedFor(pool, kind);
    var i :| 0 <= i < |pool| && pool[i].kind == kind;
    if leader != kind {
      VotesApart(pool, leader, kind);
    }
  }

  lemma VotesPermuted(a: seq<Judgment>, b: seq<Judgment>, kind: VerdictKind)
    requires multiset(a) == multiset(b)
    ensures Votes(a, kind) == Votes(b, kind)
    ensures Majority(a, kind) <==> Majority(b, kind)
  {
    FilterPermuted(Says(kind), a, b);
    SameMembers(a, b);
  }

  ghost predicate Opposed(pool: seq<Judgment>) {
    (exists j :: j in pool && j.kind == Met) && exists j :: j in pool && j.kind == NotMet
  }

  lemma SplitIsOpposition(pool: seq<Judgment>)
    ensures SevereSplit(pool) <==> Opposed(pool)
  {
    if Opposed(pool) {
      var a :| a in pool && a.kind == Met;
      var b :| b in pool && b.kind == NotMet;
      var i :| 0 <= i < |pool| && pool[i] == a;
      var j :| 0 <= j < |pool| && pool[j] == b;
      assert Rank(pool[i].kind).value - Rank(pool[j].kind).value >= 2;
    }
    if SevereSplit(pool) {
      var i, j :| 0 <= i < |pool| && 0 <= j < |pool| && Rank(pool[i].kind).Some? && Rank(pool[j].kind).Some?
                  && Rank(pool[i].kind).value - Rank(pool[j].kind).value >= 2;
      assert pool[i] in pool && pool[j] in pool;
    }
  }

  // ----- the guarantees for one requirement -----

  ghost function Pool(all: seq<Judgment>, supported: Check): seq<Judgment> {
    Filter(Counted(supported), all)
  }

  /** Nobody is asked to review exactly when a strict majority of supported votes agrees and none of them oppose. */
  lemma UnflaggedMeans(all: seq<Judgment>, supported: Check)
    requires all != []
    ensures
      var pool := Pool(all, supported);
      !Folded(all, supported).flagged <==> (exists kind :: Majority(pool, kind)) && !Opposed(pool)
  {
    var pool := Pool(all, supported);
    hide Choice, Leader, SevereSplit, Opposed;
    SplitIsOpposition(pool);
    if pool != [] {
      var leader := Leader(pool, |pool|);
      if kind :| Majority(pool, kind) {
        LeaderIsMajority(pool, kind);
      }
      if Votes(pool, leader) * 2 > |pool| {
        assert Majority(pool, leader);
      }
    }
  }

  /** Whether a human must look does not depend on the order of the votes. */
  lemma FlagIgnoresOrder(a: seq<Judgment>, b: seq<Judgment>, supported: Check)
    requires a != [] && multiset(a) == multiset(b)
    ensures b != [] && Folded(a, supported).flagged == Folded(b, supported).flagged
  {
    hide Folded, Pool, Majority, Opposed;
    SameMembers(a, b);
    var p, q := Pool(a, supported), Pool(b, supported);
    UnflaggedMeans(a, supported);
    UnflaggedMeans(b, supported);
    PoolPermuted(a, b, supported);
    OpposedPermuted(p, q);
    forall kind
      ensures Majority(p, kind) <==> Majority(q, kind)
    {
      VotesPermuted(p, q, kind);
    }
  }

  lemma PoolPermuted(a: seq<Judgment>, b: seq<Judgment>, supported: Check)
    requires multiset(a) == multiset(b)
    ensures multiset(Pool(a, supported)) == multiset(Pool(b, supported))
  {
    FilterPermuted(Counted(supported), a, b);
  }

  lemma OpposedPermuted(a: seq<Judgment>, b: seq<Judgment>)
    requires multiset(a) == multiset(b)
    ensures Opposed(a) <==> Opposed(b)
  {
    SameMembers(a, b);
  }

  lemma ChoiceMeaning(pool: seq<Judgment>, kind: VerdictKind)
    requires pool != [] && Majority(pool, kind)
    ensures
      var winners := Filter(Says(kind), pool);
      && winners != []
      && Choice(pool).kind == kind
      && Choice(pool).score == MedianLow(Scores(winners))
      && Choice(pool).confidence == Tempered(Sum(winners, ConfidenceTerm), |winners|, Agreement(|winners|, |pool|))
  {
    LeaderIsMajority(pool, kind);
    WinnersExist(pool);
    var winners := Filter(Says(kind), pool);
    FilterMembers(Says(kind), pool);
    MedianIsScored(winners);
  }

  lemma FoldedMajority(all: seq<Judgment>, supported: Check, kind: VerdictKind)
    requires all != [] && Majority(Pool(all, supported), kind)
    ensures Pool(all, supported) != [] && Folded(all, supported).judgment == Choice(Pool(all, supported))
  {
    var pool := Pool(all, supported);
    hide Choice, Leader;
    VotesWithin(pool, kind);
    LeaderIsMajority(pool, kind);
  }

  lemma VotesWithin(pool: seq<Judgment>, kind: VerdictKind)
    ensures Votes(pool, kind) <= |pool|
  {
  }

  /** With a strict majority, verdict, score and confidence are the same in every order of the votes. */
  lemma MajorityIgnoresOrder(a: seq<Judgment>, b: seq<Judgment>, supported: Check, kind: VerdictKind)
    requires a != [] && multiset(a) == multiset(b) && Majority(Pool(a, supported), kind)
    ensures b != []
    ensures
      var x, y := Folded(a, supported).judgment, Folded(b, supported).judgment;
      && x.kind == kind && y.kind == kind && x.score == y.score && x.confidence == y.confidence
  {
    SameMembers(a, b);
    var p, q := Pool(a, supported), Pool(b, supported);
    FilterPermuted(Counted(supported), a, b);
    hide Folded, Pool, Choice, Leader, Filter, Tempered, Agreement, MedianLow;
    VotesPermuted(p, q, kind);
    FilterPermuted(Says(kind), p, q);
    FoldedMajority(a, supported, kind);
    FoldedMajority(b, supported, kind);
    ChoiceMeaning(p, kind);
    ChoiceMeaning(q, kind);
    MedianPermuted(Filter(Says(kind), p), Filter(Says(kind), q));
    SumPermuted(Filter(Says(kind), p), Filter(Says(kind), q), ConfidenceTerm);
    SameMembers(p, q);
  }

  // ----- what the fold says -----

  /** The votes that count are the abstentions and those whose quotes the document contains. */
  lemma PoolMeaning(all: seq<Judgment>, supported: Check, j: Judgment)
    ensures j in Pool(all, supported) <==> j in all && (j.kind == Unknown || supported(j))
  {
    FilterMembers(Counted(supported), all);
  }

  /**
   Without any supported vote the first vote stands, and without a majority the first supported one; both are
   flagged. The tally says how large the leading group was and how many votes were left out.
   */
  lemma FallbackMeaning(all: seq<Judgment>, supported: Check)
    requires all != []
    ensures
      var pool, fold := Pool(all, supported), Folded(all, supported);
      && fold.tally.excluded == |all| - |pool|
      && (pool == [] ==> fold.judgment == all[0] && fold.flagged && fold.tally.agreement == 0.0)
      && (pool != [] && !(exists kind :: Majority(pool, kind)) ==> fold.judgment == pool[0] && fold.flagged)
      && (forall kind :: pool != [] && Majority(pool, kind) ==>
            fold.tally.agreement == Round3(Votes(pool, kind) as real / |pool| as real))
  {
    var pool := Pool(all, supported);
    hide Choice, Leader, SevereSplit, Filter, Votes, Round3;
    if pool != [] {
      if Votes(pool, Leader(pool, |pool|)) * 2 > |pool| {
        assert Majority(pool, Leader(pool, |pool|));
      }
      forall kind | Majority(pool, kind)
        ensures Leader(pool, |pool|) == kind
      {
        LeaderIsMajority(pool, kind);
      }
    }
  }

  /** A majority's confidence is what its members claimed, shared out over the whole pool. */
  lemma ConfidenceShared(pool: seq<Judgment>, kind: VerdictKind)
    requires pool != [] && Majority(pool, kind)
    ensures Choice(pool).confidence == Round3(Sum(Filter(Says(kind), pool), ConfidenceTerm) / |pool| as real)
  {
    hide Choice, Filter, Round3, Tempered, Agreement, MedianLow, Majority;
    ChoiceMeaning(pool, kind);
    TemperedShare(Sum(Filter(Says(kind), pool), ConfidenceTerm), |Filter(Says(kind), pool)|, |pool|);
  }

  lemma TemperedShare(total: real, winners: nat, size: nat)
    requires 0 < winners <= size
    ensures Tempered(total, winners, Agreement(winners, size)) == Round3(total / size as real)
  {
    hide Round3, Agreement;
    ShareOut(total, winners, size);
  }

  lemma ShareOut(total: real, winners: nat, size: nat)
    requires 0 < winners <= size
    ensures total / winners as real * Agreement(winners, size) == total / size as real
  {
    var w, n := winners as real, size as real;
    assert total / w * (w / n) == total / n;
  }

  // ----- the low median -----

  function Below(m: real): real -> bool {
    (r: real) => r < m
  }

  function UpTo(m: real): real -> bool {
    (r: real) => r <= m
  }

  function Indicator(keep: real -> bool): real -> real {
    (r: real) => if keep(r) then 1.0 else 0.0
  }

  lemma {:induction false} FilterSize(keep: real -> bool, xs: seq<real>)
    ensures |Filter(keep, xs)| as real == Sum(xs, Indicator(keep))
  {
    if xs != [] {
      var n := |xs| - 1;
      FilterSize(keep, xs[..n]);
      SumSnoc(xs[..n], xs[n], Indicator(keep));
      assert xs == xs[..n] + [xs[n]];
    }
  }

  lemma SameSize(keep: real -> bool, a: seq<real>, b: seq<real>)
    requires multiset(a) == multiset(b)
    ensures |Filter(keep, a)| == |Filter(keep, b)|
  {
    FilterSize(keep, a);
    FilterSize(keep, b);
    SumPermuted(a, b, Indicator(keep));
  }

  lemma {:induction false} FilterAtMost(keep: real -> bool, xs: seq<real>, k: nat)
    requires k <= |xs| && forall i :: k <= i < |xs| ==> !keep(xs[i])
    ensures |Filter(keep, xs)| <= k
  {
    if k < |xs| {
      FilterAtMost(keep, xs[..|xs| - 1], k);
    }
  }

  lemma {:induction false} FilterAtLeast(keep: real -> bool, xs: seq<real>, k: nat)
    requires k <= |xs| && forall i :: 0 <= i < k ==> keep(xs[i])
    ensures |Filter(keep, xs)| >= k
  {
    if k > 0 {
      FilterAtLeast(keep, xs[..|xs| - 1], if k == |xs| then k - 1 else k);
    }
  }

  /** The median is a score with fewer than half of the scores below it and at least half not above it. */
  lemma MedianMeaning(scores: seq<real>)
    requires scores != []
    ensures
      var median := MedianLow(scores);
      && median.Some? && median.value in scores
      && 2 * |Filter(Below(median.value), scores)| < |scores|
      && 2 * |Filter(UpTo(median.value), scores)| >= |scores|
  {
    var sorted, k := Sort(A.Ascending, scores), (|scores| - 1) / 2;
    A.AscendingOrder();
    SortSorts(A.Ascending, scores);
    SortPermutes(A.Ascending, scores);
    SortMembers(A.Ascending, scores);
    var m := sorted[k];
    assert m in sorted;
    hide Sort, Filter;
    forall i | 0 <= i < |sorted|
      ensures i <= k ==> sorted[i] <= m
      ensures i >= k ==> m <= sorted[i]
    {
      assert i < k ==> A.Ascending(sorted[i], sorted[k]);
      assert i > k ==> A.Ascending(sorted[k], sorted[i]);
    }
    FilterAtMost(Below(m), sorted, k);
    FilterAtLeast(UpTo(m), sorted, k + 1);
    SameSize(Below(m), sorted, scores);
    SameSize(UpTo(m), sorted, scores);
  }

  // ----- the guarantees for the whole vote -----

  lemma {:induction false} PooledAppend(a: seq<seq<Judgment>>, b: seq<seq<Judgment>>, id: string)
    ensures Pooled(a + b, id) == Pooled(a, id) + Pooled(b, id)
  {
    hide Filter;
    if b == [] {
      assert a + b == a;
    } else {
      var all, init, last := a + b, b[..|b| - 1], b[|b| - 1];
      assert all[..|all| - 1] == a + init && all[|all| - 1] == last;
      PooledAppend(a, init, id);
      assert Pooled(all, id) == Pooled(a + init, id) + Filter(ForReq(id), last);
    }
  }

  lemma PooledOne(output: seq<Judgment>, id: string)
    ensures Pooled([output], id) == Filter(ForReq(id), output)
  {
    assert [output][..0] == [];
  }

  lemma OneTaken<T>(b: seq<T>, i: nat)
    requires i < |b|
    ensures multiset(b[..i] + b[i + 1..]) == multiset(b) - multiset{b[i]}
  {
    assert b == b[..i] + [b[i]] + b[i + 1..];
  }

  lemma FirstTaken<T>(a: seq<T>, b: seq<T>, i: nat)
    requires multiset(a) == multiset(b) && a != [] && i < |b| && b[i] == a[0]
    ensures multiset(a[1..]) == multiset(b[..i] + b[i + 1..])
  {
    TailMultiset(a);
    OneTaken(b, i);
  }

  lemma PooledTaken(b: seq<seq<Judgment>>, i: nat, id: string)
    requires i < |b|
    ensures multiset(Pooled(b, id)) == multiset(Filter(ForReq(id), b[i])) + multiset(Pooled(b[..i] + b[i + 1..], id))
  {
    hide Pooled;
    assert b == b[..i] + ([b[i]] + b[i + 1..]);
    PooledAppend(b[..i], [b[i]] + b[i + 1..], id);
    PooledAppend([b[i]], b[i + 1..], id);
    PooledAppend(b[..i], b[i + 1..], id);
    PooledOne(b[i], id);
  }

  /** Shuffling the passes shuffles every requirement's pool. */
  lemma {:induction false} PooledPermuted(a: seq<seq<Judgment>>, b: seq<seq<Judgment>>, id: string)
    requires multiset(a) == multiset(b)
    ensures multiset(Pooled(a, id)) == multiset(Pooled(b, id))
  {
    SameMembers(a, b);
    if a != [] {
      hide Pooled;
      assert a[0] in a;
      var i :| 0 <= i < |b| && b[i] == a[0];
      FirstTaken(a, b, i);
      PooledTaken(a, 0, id);
      PooledTaken(b, i, id);
      assert a[..0] + a[1..] == a[1..];
      PooledPermuted(a[1..], b[..i] + b[i + 1..], id);
    }
  }

  /** The same passes in another order flag the same requirements and settle the majorities alike. */
  lemma BallotIgnoresOrder(a: seq<seq<Judgment>>, b: seq<seq<Judgment>>, supported: Check, id: string)
    requires multiset(a) == multiset(b)
    ensures id in Named(a) <==> id in Named(b)
    ensures id in Named(a) ==>
              var p, q := Pooled(a, id), Pooled(b, id);
              && p != [] && q != []
              && Folded(p, supported).flagged == Folded(q, supported).flagged
              && ((exists kind :: Majority(Pool(p, supported), kind)) ==>
                    var x, y := Folded(p, supported).judgment, Folded(q, supported).judgment;
                    x.kind == y.kind && x.score == y.score && x.confidence == y.confidence)
  {
    hide Folded, Pool, Majority, Pooled, Named;
    NamedMeaning(a);
    NamedMeaning(b);
    PooledPermuted(a, b, id);
    var p, q := Pooled(a, id), Pooled(b, id);
    SameMembers(p, q);
    if id in Named(a) {
      FlagIgnoresOrder(p, q, supported);
      if kind :| Majority(Pool(p, supported), kind) {
        MajorityIgnoresOrder(p, q, supported, kind);
      }
    }
  }


  /** A requirement's pool holds what any pass said about it, and nothing else. */
  lemma {:induction false} PooledMeaning(outputs: seq<seq<Judgment>>, id: string, j: Judgment)
    ensures j in Pooled(outputs, id) <==> j.reqId == id && exists o :: 0 <= o < |outputs| && j in outputs[o]
  {
    if outputs != [] {
      var n := |outputs| - 1;
      PooledMeaning(outputs[..n], id, j);
      PooledLast(outputs, id, j);
      hide *;
      if o :| 0 <= o < |outputs| && j in outputs[o] {
        assert o < n ==> outputs[..n][o] == outputs[o];
      }
      if o :| 0 <= o < n && j in outputs[..n][o] {
        assert j in outputs[o];
      }
    }
  }

  lemma PooledLast(outputs: seq<seq<Judgment>>, id: string, j: Judgment)
    requires outputs != []
    ensures j in Pooled(outputs, id) <==>
              j in Pooled(outputs[..|outputs| - 1], id) || (j.reqId == id && j in outputs[|outputs| - 1])
  {
    hide Filter;
    FilterMembers(ForReq(id), outputs[|outputs| - 1]);
  }

  // ----- the order of the result -----

  /** Everything the completed passes said, one pass after the other. */
  function Said(outputs: seq<seq<Judgment>>): seq<Judgment> {
    if outputs == [] then [] else Said(outputs[..|outputs| - 1]) + outputs[|outputs| - 1]
  }

  lemma {:induction false} NamedInAppend(a: seq<Judgment>, b: seq<Judgment>, before: seq<string>)
    ensures NamedIn(a + b, before) == NamedIn(b, NamedIn(a, before))
  {
    if b == [] {
      assert a + b == a;
    } else {
      NamedInAppend(a, b[..|b| - 1], before);
      assert (a + b)[..|a + b| - 1] == a + b[..|b| - 1];
    }
  }

  lemma {:induction false} NamedIsNamedIn(outputs: seq<seq<Judgment>>)
    ensures Named(outputs) == NamedIn(Said(outputs), [])
  {
    if outputs != [] {
      NamedIsNamedIn(outputs[..|outputs| - 1]);
      NamedInAppend(Said(outputs[..|outputs| - 1]), outputs[|outputs| - 1], []);
    }
  }

  /** The judgment at `p` is the first about the `k`-th requirement, and all before it are about earlier ones. */
  ghost predicate FirstSaid(said: seq<Judgment>, names: seq<string>, k: nat, p: nat)
    requires k < |names|
  {
    p < |said| && said[p].reqId == names[k] && forall q :: 0 <= q < p ==> said[q].reqId in names[..k]
  }

  lemma {:induction false} AllNamed(said: seq<Judgment>)
    ensures forall q :: 0 <= q < |said| ==> said[q].reqId in NamedIn(said, [])
  {
    if said != [] {
      AllNamed(said[..|said| - 1]);
      assert forall q :: 0 <= q < |said| - 1 ==> said[..|said| - 1][q] == said[q];
    }
  }

  lemma {:induction false} NamedAsSaid(said: seq<Judgment>, k: nat) returns (p: nat)
    requires k < |NamedIn(said, [])|
    ensures FirstSaid(said, NamedIn(said, []), k, p)
  {
    var init := said[..|said| - 1];
    if k < |NamedIn(init, [])| {
      p := NamedAsSaid(init, k);
      assert forall q :: 0 <= q <= p ==> said[q] == init[q];
      assert NamedIn(said, [])[..k] == NamedIn(init, [])[..k];
    } else {
      p := |said| - 1;
      AllNamed(init);
      assert forall q :: 0 <= q < p ==> said[q] == init[q];
      assert NamedIn(said, [])[..k] == NamedIn(init, []);
    }
  }

  /** Requirements are reported in the order in which the passes first came to them. */
  lemma FirstComeOrder(outputs: seq<seq<Judgment>>, k: nat) returns (p: nat)
    requires k < |Named(outputs)|
    ensures FirstSaid(Said(outputs), Named(outputs), k, p)
  {
    NamedIsNamedIn(outputs);
    p := NamedAsSaid(Said(outputs), k);
  }
}
