/** The one ranking rule (domain/ranking.py): score, then confidence, then a stable id. */
module Ranking {
  import opened Applications
  import opened Wrappers
  import opened Sorting
  import opened Sets
  import opened Spec
  import opened Scoring

  datatype HardResult = Passed | Failed | Borderline
  datatype StoredBand = Banded(band: Band) | Rejected
  datatype Flag = FromScorer(reason: ReviewReason) | LightScreenFailed | DeepAnalysisFailed | VoteDisagreement
                | InjectionDetected

  /** One evaluation row. `verdicts` is what the stored result document keeps of them. */
  datatype Row = Row(
    verdicts: Verdicts, hardResult: HardResult, score: Option<real>, confidence: Option<real>,
    band: Option<StoredBand>, rank: Option<nat>, flags: set<Flag>, deep: bool)

  type Rows = map<AppId, Row>

  function OrZero(x: Option<real>): real {
    if x.Some? then x.value else 0.0
  }

  function ScoreIn(rows: Rows, id: AppId): real {
    if id in rows then OrZero(rows[id].score) else 0.0
  }

  function ConfidenceIn(rows: Rows, id: AppId): real {
    if id in rows then OrZero(rows[id].confidence) else 0.0
  }

  /** Best first. */
  predicate NotAfter(rows: Rows, a: AppId, b: AppId) {
    || ScoreIn(rows, a) > ScoreIn(rows, b)
    || (ScoreIn(rows, a) == ScoreIn(rows, b)
        && (|| ConfidenceIn(rows, a) > ConfidenceIn(rows, b)
            || (ConfidenceIn(rows, a) == ConfidenceIn(rows, b) && a.order <= b.order)))
  }

  function ByKey(rows: Rows): (AppId, AppId) -> bool {
    (a, b) => NotAfter(rows, a, b)
  }

  lemma ByKeyOrders(rows: Rows)
    ensures TotalPreorder(ByKey(rows)) && Antisymmetric(ByKey(rows))
  {
  }

  ghost function Ahead(rows: Rows, passing: set<AppId>, id: AppId): set<AppId> {
    set other | other in passing && other != id && NotAfter(rows, other, id)
  }

  /** A passing candidate's rank counts the passing candidates that come before; nobody else has a rank. */
  ghost function RankedRow(rows: Rows, passing: set<AppId>, id: AppId): Row
    requires id in rows
  {
    if id in passing then rows[id].(rank := Some(|Ahead(rows, passing, id)| + 1))
    else rows[id].(rank := None, band := Some(Rejected))
  }

  ghost function RankedOver(rows: Rows, passing: set<AppId>): Rows {
    map id | id in rows :: RankedRow(rows, passing, id)
  }

  /** In a sorted list without repeats the position of an element is the number of elements before it. */
  lemma SortedPosition(rows: Rows, order: seq<AppId>, passing: set<AppId>, k: nat)
    requires Distinct(order) && SortedBy(ByKey(rows), order) && k < |order|
    requires forall id :: id in passing <==> id in order
    ensures |Ahead(rows, passing, order[k])| == k
  {
    var before := order[..k];
    forall id
      ensures id in Ahead(rows, passing, order[k]) <==> id in before
    {
      if id in before {
        var j :| 0 <= j < k && order[j] == id;
        assert ByKey(rows)(order[j], order[k]);
        assert id in order;
      } else if id in Ahead(rows, passing, order[k]) {
        assert id in order;
        var j :| 0 <= j < |order| && order[j] == id;
        assert j > k;
        assert ByKey(rows)(order[k], order[j]);
        ByKeyOrders(rows);
      }
    }
    assert Ahead(rows, passing, order[k]) == set id | id in before;
    assert Distinct(before);
    DistinctSetSize(before);
  }

  lemma SortedDistinct(rows: Rows, ids: seq<AppId>)
    requires Distinct(ids)
    ensures
      var order := Sort(ByKey(rows), ids);
      && Distinct(order) && SortedBy(ByKey(rows), order) && |order| == |ids|
      && forall id :: id in order <==> id in ids
  {
    ByKeyOrders(rows);
    SortSorts(ByKey(rows), ids);
    SortPermutes(ByKey(rows), ids);
    SortMembers(ByKey(rows), ids);
    DistinctPermutes(ids, Sort(ByKey(rows), ids));
  }

  // ----- what the ranks mean -----

  lemma NotAfterStrict(rows: Rows, a: AppId, b: AppId, c: AppId)
    ensures NotAfter(rows, a, b) && NotAfter(rows, b, a) ==> a == b
    ensures NotAfter(rows, a, b) || NotAfter(rows, b, a)
    ensures NotAfter(rows, a, b) && NotAfter(rows, b, c) ==> NotAfter(rows, a, c)
  {
  }

  /** Ranks follow the key order exactly. */
  lemma RanksFollowKeys(rows: Rows, passing: set<AppId>, a: AppId, b: AppId)
    requires a in passing && b in passing && a != b
    ensures |Ahead(rows, passing, a)| < |Ahead(rows, passing, b)| <==> NotAfter(rows, a, b)
  {
    if NotAfter(rows, a, b) {
      AheadGrows(rows, passing, a, b);
    } else {
      AheadGrows(rows, passing, b, a);
    }
  }

  lemma AheadGrows(rows: Rows, passing: set<AppId>, a: AppId, b: AppId)
    requires a in passing && b in passing && a != b && (NotAfter(rows, a, b) || !NotAfter(rows, b, a))
    ensures |Ahead(rows, passing, a)| < |Ahead(rows, passing, b)|
  {
    NotAfterStrict(rows, a, b, a);
    forall other | other in Ahead(rows, passing, a)
      ensures other in Ahead(rows, passing, b)
    {
      NotAfterStrict(rows, other, a, b);
    }
    assert a in Ahead(rows, passing, b) && a !in Ahead(rows, passing, a);
    StrictSubset(Ahead(rows, passing, a), Ahead(rows, passing, b));
  }

  lemma AheadWithin(rows: Rows, passing: set<AppId>, id: AppId)
    requires id in passing
    ensures |Ahead(rows, passing, id)| < |passing|
  {
    assert id in passing && id !in Ahead(rows, passing, id);
    StrictSubset(Ahead(rows, passing, id), passing);
  }

  /** Every rank from 1 to the number of passing candidates is held, and by one candidate only. */
  lemma EveryRankHeld(rows: Rows, passing: set<AppId>, ids: seq<AppId>, k: nat)
    requires Distinct(ids) && (forall id :: id in ids <==> id in passing) && k < |passing|
    ensures exists id :: id in passing && |Ahead(rows, passing, id)| == k
  {
    SortedDistinct(rows, ids);
    var order := Sort(ByKey(rows), ids);
    DistinctSetSize(order);
    var held := set id | id in order;
    forall id
      ensures id in held <==> id in passing
    {
      assert id in order <==> id in ids;
    }
    assert held == passing;
    SortedPosition(rows, order, passing, k);
    assert order[k] in order;
  }

  // ----- candidates too close to tell apart -----

  const EQUIVALENCE_EPSILON := 1.0

  predicate Apart(a: Option<real>, b: Option<real>) {
    var x, y := OrZero(a), OrZero(b);
    (if x < y then y - x else x - y) >= EQUIVALENCE_EPSILON
  }

  /** Group numbers along a ranking: a new one whenever two neighbours are apart. */
  function Groups(scores: seq<Option<real>>): (groups: seq<int>)
    ensures |groups| == |scores|
  {
    if scores == [] then []
    else
      var n := |scores| - 1;
      var before := Groups(scores[..n]);
      before + [if n == 0 then 0 else before[n - 1] + if Apart(scores[n - 1], scores[n]) then 1 else 0]
  }

  method EquivalenceGroups(scores: seq<Option<real>>) returns (groups: seq<int>)
    ensures groups == Groups(scores)
  {
    groups := [];
    var group := 0;
    var previous: Option<real> := None;
    for i := 0 to |scores|
      invariant groups == Groups(scores[..i])
      invariant i == 0 ==> group == 0 && previous == None
      invariant i > 0 ==> group == groups[i - 1] && previous == Some(OrZero(scores[i - 1]))
    {
      assert scores[..i + 1][..i] == scores[..i];
      var value := OrZero(scores[i]);
      if previous.Some? && Apart(previous, Some(value)) {
        group := group + 1;
      }
      groups := groups + [group];
      previous := Some(value);
    }
    assert scores[..|scores|] == scores;
  }

  lemma {:induction false} GroupStep(scores: seq<Option<real>>, k: nat)
    requires 0 < k < |scores|
    ensures Groups(scores)[0] == 0
    ensures Groups(scores)[k] == Groups(scores)[k - 1] + if Apart(scores[k - 1], scores[k]) then 1 else 0
  {
    var n := |scores| - 1;
    if k < n {
      GroupStep(scores[..n], k);
    } else if n > 1 {
      GroupStep(scores[..n], n - 1);
    }
  }

  /** Group numbers never go down, and two candidates share one exactly when no neighbours between them are apart. */
  lemma {:induction false} SharedGroup(scores: seq<Option<real>>, i: nat, j: nat)
    requires i <= j < |scores|
    ensures Groups(scores)[i] <= Groups(scores)[j]
    ensures Groups(scores)[i] == Groups(scores)[j] <==>
              forall k :: i < k <= j ==> -1.0 < OrZero(scores[k - 1]) - OrZero(scores[k]) < 1.0
    decreases j
  {
    if i < j {
      SharedGroup(scores, i, j - 1);
      GroupStep(scores, j);
    }
  }

  ghost predicate Descending(scores: seq<Option<real>>) {
    forall i, j :: 0 <= i <= j < |scores| ==> OrZero(scores[i]) >= OrZero(scores[j])
  }

  /** In a ranking, candidates closer than the smallest finding are never told apart. */
  lemma CloseScoresShareGroup(scores: seq<Option<real>>, i: nat, j: nat)
    requires Descending(scores) && i <= j < |scores| && OrZero(scores[i]) - OrZero(scores[j]) < 1.0
    ensures Groups(scores)[i] == Groups(scores)[j]
  {
    SharedGroup(scores, i, j);
    forall k | i < k <= j
      ensures -1.0 < OrZero(scores[k - 1]) - OrZero(scores[k]) < 1.0
    {
      assert OrZero(scores[i]) >= OrZero(scores[k - 1]) >= OrZero(scores[k]) >= OrZero(scores[j]);
    }
  }
}
