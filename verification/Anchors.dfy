/** Judgment ladders (domain/anchors.py): a model's number is put on the nearest rung, ties down. */
module Anchors {
  import opened Wrappers
  import opened Sorting
  import opened Spec

  const DEFAULT_LADDER: seq<real> := [1.0, 0.75, 0.5, 0.25, 0.0]

  function Rungs(req: Requirement): (rungs: seq<real>)
    ensures rungs != []
  {
    if req.semantic.Some? && req.semantic.value.anchors != [] then req.semantic.value.anchors else DEFAULT_LADDER
  }

  predicate Ascending(a: real, b: real) { a <= b }

  function Distance(a: real, b: real): real {
    if a < b then b - a else a - b
  }

  /** The best rung once the first `n` have been looked at; only a strictly nearer one replaces it. */
  function BestOf(ladder: seq<real>, value: real, n: nat): real
    requires 0 < |ladder| && n <= |ladder|
  {
    if n == 0 then ladder[0]
    else
      var best := BestOf(ladder, value, n - 1);
      if Distance(ladder[n - 1], value) < Distance(best, value) then ladder[n - 1] else best
  }

  function SnapTo(rungs: seq<real>, value: real): real
    requires rungs != []
  {
    SortPermutes(Ascending, rungs);
    BestOf(Sort(Ascending, rungs), value, |rungs|)
  }

  function SnapOf(req: Requirement, value: Option<real>): Option<real> {
    match value
    case None => None
    case Some(x) => Some(SnapTo(Rungs(req), x))
  }

  method Snap(req: Requirement, value: Option<real>) returns (snapped: Option<real>)
    ensures snapped == SnapOf(req, value)
  {
    if value == None { return None; }
    var ladder := Sort(Ascending, Rungs(req));
    SortPermutes(Ascending, Rungs(req));
    var best := Scan(ladder, value.value);
    return Some(best);
  }

  method Scan(ladder: seq<real>, value: real) returns (best: real)
    requires ladder != []
    ensures best == BestOf(ladder, value, |ladder|)
  {
    best := ladder[0];
    for i := 0 to |ladder|
      invariant best == BestOf(ladder, value, i)
    {
      if Distance(ladder[i], value) < Distance(best, value) {
        best := ladder[i];
      }
    }
  }

  /** The rung no other is nearer than; between two equally near ones, the lower. */
  ghost predicate Nearest(rungs: seq<real>, value: real, best: real) {
    && best in rungs
    && forall r :: r in rungs ==>
         Distance(best, value) < Distance(r, value) || (Distance(best, value) == Distance(r, value) && best <= r)
  }

  lemma {:induction false} ScanIsNearest(ladder: seq<real>, value: real, n: nat)
    requires 0 < n <= |ladder| && SortedBy(Ascending, ladder)
    ensures BestOf(ladder, value, n) in ladder
    ensures Nearest(ladder[..n], value, BestOf(ladder, value, n))
  {
    if n > 1 {
      ScanIsNearest(ladder, value, n - 1);
      assert ladder[..n] == ladder[..n - 1] + [ladder[n - 1]];
      var best := BestOf(ladder, value, n - 1);
      var i :| 0 <= i < n - 1 && ladder[..n - 1][i] == best;
      assert Ascending(ladder[i], ladder[n - 1]);
    } else {
      assert BestOf(ladder, value, 0) == ladder[0];
      assert ladder[..1] == [ladder[0]];
    }
  }

  lemma AscendingOrder()
    ensures TotalPreorder(Ascending)
  {
  }

  lemma SnapIsNearest(rungs: seq<real>, value: real)
    requires rungs != []
    ensures Nearest(rungs, value, SnapTo(rungs, value))
  {
    var ladder := Sort(Ascending, rungs);
    AscendingOrder();
    SortSorts(Ascending, rungs);
    SortPermutes(Ascending, rungs);
    SortMembers(Ascending, rungs);
    ScanIsNearest(ladder, value, |ladder|);
    assert ladder[..|ladder|] == ladder;
  }

  /** There is only one such rung, so the order of the ladder and repeats in it do not matter. */
  lemma NearestUnique(rungs: seq<real>, other: seq<real>, value: real, a: real, b: real)
    requires forall r :: r in rungs <==> r in other
    requires Nearest(rungs, value, a) && Nearest(other, value, b)
    ensures a == b
  {
  }

  lemma SnapIgnoresOrder(rungs: seq<real>, other: seq<real>, value: real)
    requires rungs != [] && forall r :: r in rungs <==> r in other
    ensures other != [] && SnapTo(rungs, value) == SnapTo(other, value)
  {
    assert rungs[0] in rungs;
    SnapIsNearest(rungs, value);
    SnapIsNearest(other, value);
    NearestUnique(rungs, other, value, SnapTo(rungs, value), SnapTo(other, value));
  }

  /** A rung snaps to itself, so snapping twice is snapping once. */
  lemma SnapIdempotent(rungs: seq<real>, value: real)
    requires rungs != []
    ensures SnapTo(rungs, SnapTo(rungs, value)) == SnapTo(rungs, value)
  {
    SnapIsNearest(rungs, value);
    SnapIsNearest(rungs, SnapTo(rungs, value));
  }

  /** A better judged number never lands on a lower rung. */
  lemma SnapMonotone(rungs: seq<real>, low: real, high: real)
    requires rungs != [] && low <= high
    ensures SnapTo(rungs, low) <= SnapTo(rungs, high)
  {
    SnapIsNearest(rungs, low);
    SnapIsNearest(rungs, high);
  }

  /** A number exactly between two neighbouring rungs goes to the lower one. */
  lemma TiesGoDown(rungs: seq<real>, low: real, high: real, value: real)
    requires low in rungs && high in rungs && low < high && value == (low + high) / 2.0
    requires forall r :: r in rungs ==> r <= low || high <= r
    ensures SnapTo(rungs, value) == low
  {
    SnapIsNearest(rungs, value);
  }

  /** Whatever number a model returns, a ladder within [0, 1] keeps the score there. */
  lemma SnapBounded(rungs: seq<real>, value: real)
    requires rungs != [] && forall r :: r in rungs ==> 0.0 <= r <= 1.0
    ensures 0.0 <= SnapTo(rungs, value) <= 1.0
  {
    SnapIsNearest(rungs, value);
  }
}
