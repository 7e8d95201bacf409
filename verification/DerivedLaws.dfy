/** The months a career covers: merging is exact, totals count months once, gaps are the real ones. */
module DerivedLaws {
  import opened Wrappers
  import opened Sorting
  import opened Integers
  import opened Sets
  import opened Derived

  ghost predicate Covers(intervals: seq<Interval>, month: int) {
    exists i :: 0 <= i < |intervals| && intervals[i].start <= month <= intervals[i].end
  }

  ghost predicate Proper(intervals: seq<Interval>) {
    forall i :: 0 <= i < |intervals| ==> intervals[i].start <= intervals[i].end
  }

  ghost predicate ByStart(intervals: seq<Interval>) {
    forall i, j :: 0 <= i < j < |intervals| ==> intervals[i].start <= intervals[j].start
  }

  /** In order, with at least one free month between any two. */
  ghost predicate Apart(merged: seq<Interval>) {
    forall i, j :: 0 <= i < j < |merged| ==> merged[i].end + 1 < merged[j].start
  }

  // ----- merging -----

  lemma CoversSnoc(intervals: seq<Interval>, next: Interval, month: int)
    ensures Covers(intervals + [next], month) <==> Covers(intervals, month) || next.start <= month <= next.end
  {
    var all := intervals + [next];
    if Covers(intervals, month) {
      var i :| 0 <= i < |intervals| && intervals[i].start <= month <= intervals[i].end;
      assert all[i].start <= month <= all[i].end;
    }
    if next.start <= month <= next.end {
      assert all[|intervals|].start <= month <= all[|intervals|].end;
    }
  }

  lemma JoinedCovers(merged: seq<Interval>, next: Interval, month: int)
    requires Proper(merged) && next.start <= next.end
    requires merged != [] ==> merged[|merged| - 1].start <= next.start
    ensures Covers(Joined(merged, next), month) <==> Covers(merged, month) || next.start <= month <= next.end
  {
    if merged != [] && Touches(merged[|merged| - 1], next) {
      var n := |merged| - 1;
      var last := merged[n];
      assert merged == merged[..n] + [last];
      CoversSnoc(merged[..n], last, month);
      CoversSnoc(merged[..n], Interval(last.start, Max(last.end, next.end)), month);
    } else {
      CoversSnoc(merged, next, month);
    }
  }

  lemma JoinedApart(merged: seq<Interval>, next: Interval)
    requires Proper(merged) && Apart(merged) && next.start <= next.end
    requires merged != [] ==> merged[|merged| - 1].start <= next.start
    ensures Proper(Joined(merged, next)) && Apart(Joined(merged, next))
    ensures Joined(merged, next) != [] && Joined(merged, next)[|Joined(merged, next)| - 1].start <= next.start
  {
  }

  /** Merging keeps exactly the months worked, in intervals that are sorted, disjoint and not adjacent. */
  lemma {:induction false} MergingIsExact(intervals: seq<Interval>)
    requires Proper(intervals) && ByStart(intervals)
    ensures Proper(Merged(intervals)) && Apart(Merged(intervals))
    ensures intervals != [] ==>
              && Merged(intervals) != []
              && Merged(intervals)[|Merged(intervals)| - 1].start <= intervals[|intervals| - 1].start
    ensures forall month :: Covers(Merged(intervals), month) <==> Covers(intervals, month)
  {
    hide Joined, Covers;
    if intervals != [] {
      var n := |intervals| - 1;
      var init, next := intervals[..n], intervals[n];
      MergingIsExact(init);
      assert n > 0 ==> intervals[n - 1].start <= next.start;
      hide Apart;
      JoinedApart(Merged(init), next);
      assert intervals == init + [next];
      forall month
        ensures Covers(Merged(intervals), month) <==> Covers(intervals, month)
      {
        JoinedCovers(Merged(init), next, month);
        CoversSnoc(init, next, month);
      }
    }
  }

  lemma {:induction false} StatedIsProper(roles: seq<Role>, today: int)
    ensures Proper(Stated(roles, today))
  {
    if roles != [] {
      StatedIsProper(roles[..|roles| - 1], today);
    }
  }

  lemma EarlierOrders()
    ensures TotalPreorder(Earlier)
  {
  }

  lemma IntervalsInOrder(roles: seq<Role>, today: int)
    ensures Proper(Intervals(roles, today)) && ByStart(Intervals(roles, today))
    ensures forall x :: x in Intervals(roles, today) <==> x in Stated(roles, today)
  {
    var stated := Stated(roles, today);
    EarlierOrders();
    SortSorts(Earlier, stated);
    SortMembers(Earlier, stated);
    StatedIsProper(roles, today);
    forall i | 0 <= i < |Intervals(roles, today)|
      ensures Intervals(roles, today)[i].start <= Intervals(roles, today)[i].end
    {
      assert Intervals(roles, today)[i] in stated;
    }
    forall i, j | 0 <= i < j < |Intervals(roles, today)|
      ensures Intervals(roles, today)[i].start <= Intervals(roles, today)[j].start
    {
      assert Earlier(Intervals(roles, today)[i], Intervals(roles, today)[j]);
    }
  }

  // ----- totals -----

  function Span(start: int, end: int): (s: set<int>)
    ensures forall m :: m in s <==> start <= m <= end
    decreases end - start
  {
    if start > end then {} else Span(start, end - 1) + {end}
  }

  lemma {:induction false} SpanSize(start: int, end: int)
    ensures |Span(start, end)| == MonthsInclusive(start, end)
    decreases end - start
  {
    if start <= end {
      SpanSize(start, end - 1);
    }
  }

  function Worked(intervals: seq<Interval>): (s: set<int>)
    ensures forall m :: m in s <==> Covers(intervals, m)
  {
    if intervals == [] then {}
    else
      var n := |intervals| - 1;
      assert intervals == intervals[..n] + [intervals[n]];
      assert forall m ::
        Covers(intervals, m) <==> Covers(intervals[..n], m) || intervals[n].start <= m <= intervals[n].end by {
        forall m
          ensures Covers(intervals, m) <==> Covers(intervals[..n], m) || intervals[n].start <= m <= intervals[n].end
        {
          CoversSnoc(intervals[..n], intervals[n], m);
        }
      }
      Worked(intervals[..n]) + Span(intervals[n].start, intervals[n].end)
  }

  /** Over separate intervals the total is the number of months worked. */
  lemma {:induction false} TotalCountsMonths(merged: seq<Interval>)
    requires Proper(merged) && Apart(merged)
    ensures TotalMonths(merged) == |Worked(merged)|
  {
    if merged != [] {
      var n := |merged| - 1;
      TotalCountsMonths(merged[..n]);
      SpanSize(merged[n].start, merged[n].end);
      forall m | m in Worked(merged[..n])
        ensures m < merged[n].start
      {
        var i :| 0 <= i < n && merged[..n][i].start <= m <= merged[..n][i].end;
        assert merged[i].end + 1 < merged[n].start;
      }
      DisjointSize(Worked(merged[..n]), Span(merged[n].start, merged[n].end));
    }
  }

  ghost predicate WorkedIn(roles: seq<Role>, today: int, month: int) {
    exists i :: 0 <= i < |roles| && Spans(roles[i], today, month)
  }

  /** The role as stated was held in the month: from its start to its end, or until today if it is current. */
  ghost predicate Spans(role: Role, today: int, month: int) {
    && role.start.Some? && role.start.value <= month
    && (if role.end.Some? then month <= role.end.value else role.current && month <= today)
  }

  lemma IntervalSpans(role: Role, today: int, month: int)
    ensures Spans(role, today, month) <==>
              var interval := IntervalOf(role, today);
              interval.Some? && interval.value.start <= month <= interval.value.end
  {
  }

  lemma {:induction false} StatedCovers(roles: seq<Role>, today: int, month: int)
    ensures Covers(Stated(roles, today), month) <==> WorkedIn(roles, today, month)
  {
    hide IntervalOf, Spans;
    if roles != [] {
      var n := |roles| - 1;
      StatedCovers(roles[..n], today, month);
      IntervalSpans(roles[n], today, month);
      var last := IntervalOf(roles[n], today);
      assert Stated(roles[..n], today) + [] == Stated(roles[..n], today);
      if last.Some? {
        CoversSnoc(Stated(roles[..n], today), last.value, month);
      }
      if WorkedIn(roles[..n], today, month) {
        var i :| 0 <= i < n && Spans(roles[..n][i], today, month);
        assert Spans(roles[i], today, month);
      }
      if WorkedIn(roles, today, month) {
        var i :| 0 <= i < |roles| && Spans(roles[i], today, month);
        assert i < n ==> Spans(roles[..n][i], today, month);
      }
      assert Spans(roles[n], today, month) ==> WorkedIn(roles, today, month);
    }
  }

  lemma SameCover(a: seq<Interval>, b: seq<Interval>, month: int)
    requires forall x :: x in a ==> x in b
    ensures Covers(a, month) ==> Covers(b, month)
  {
    if Covers(a, month) {
      var i :| 0 <= i < |a| && a[i].start <= month <= a[i].end;
      assert a[i] in a;
      var j :| 0 <= j < |b| && b[j] == a[i];
    }
  }

  /** The merged intervals of a career cover a month exactly when some role does. */
  lemma CareerIsCovered(roles: seq<Role>, today: int, month: int)
    ensures Covers(Merged(Intervals(roles, today)), month) <==> WorkedIn(roles, today, month)
  {
    IntervalsInOrder(roles, today);
    hide Intervals, Stated, Merged;
    MergingIsExact(Intervals(roles, today));
    SameCover(Intervals(roles, today), Stated(roles, today), month);
    SameCover(Stated(roles, today), Intervals(roles, today), month);
    StatedCovers(roles, today, month);
  }

  lemma CareerIsApart(roles: seq<Role>, today: int)
    ensures Proper(Merged(Intervals(roles, today))) && Apart(Merged(Intervals(roles, today)))
  {
    IntervalsInOrder(roles, today);
    MergingIsExact(Intervals(roles, today));
  }

  ghost function CareerMonths(roles: seq<Role>, today: int): (s: set<int>)
    ensures forall m :: m in s <==> WorkedIn(roles, today, m)
  {
    var merged := Merged(Intervals(roles, today));
    assert forall m :: Covers(merged, m) <==> WorkedIn(roles, today, m) by {
      forall m
        ensures Covers(merged, m) <==> WorkedIn(roles, today, m)
      {
        CareerIsCovered(roles, today, m);
      }
    }
    Worked(merged)
  }

  /** Total experience is the number of months in which at least one role was held. */
  lemma TotalIsMonthsWorked(roles: seq<Role>, today: int)
    ensures EmploymentOf(roles, today).totalMonths == |CareerMonths(roles, today)|
  {
    CareerIsApart(roles, today);
    TotalCountsMonths(Merged(Intervals(roles, today)));
  }

  /** More roles never make for less experience, and the order in which they are listed does not matter. */
  lemma MoreRolesNeverLess(roles: seq<Role>, more: seq<Role>, today: int)
    requires forall r :: r in roles ==> r in more
    ensures EmploymentOf(roles, today).totalMonths <= EmploymentOf(more, today).totalMonths
  {
    TotalIsMonthsWorked(roles, today);
    TotalIsMonthsWorked(more, today);
    hide EmploymentOf, CareerMonths, Spans;
    forall m | m in CareerMonths(roles, today)
      ensures m in CareerMonths(more, today)
    {
      var i :| 0 <= i < |roles| && Spans(roles[i], today, m);
      assert roles[i] in roles;
      var j :| 0 <= j < |more| && more[j] == roles[i];
      assert Spans(more[j], today, m);
    }
    SubsetSize(CareerMonths(roles, today), CareerMonths(more, today));
  }

  // ----- gaps -----

  /** A longest stretch without work between two worked months. */
  ghost predicate FreeRun(merged: seq<Interval>, from: int, last: int) {
    && from <= last
    && Covers(merged, from - 1) && Covers(merged, last + 1)
    && forall m :: from <= m <= last ==> !Covers(merged, m)
  }

  lemma {:induction false} GapsMeaning(merged: seq<Interval>, gap: Gap)
    ensures gap in Gaps(merged) <==> exists i :: 0 < i < |merged| && gap in GapBetween(merged[i - 1], merged[i])
  {
    hide GapBetween;
    if |merged| >= 2 {
      var n := |merged| - 1;
      GapsMeaning(merged[..n], gap);
      if gap in Gaps(merged[..n]) {
        var i :| 0 < i < n && gap in GapBetween(merged[..n][i - 1], merged[..n][i]);
        assert gap in GapBetween(merged[i - 1], merged[i]);
      }
      if i :| 0 < i < |merged| && gap in GapBetween(merged[i - 1], merged[i]) {
        assert i < n ==> gap in GapBetween(merged[..n][i - 1], merged[..n][i]);
      }
    }
  }

  lemma BetweenIsFree(merged: seq<Interval>, i: nat)
    requires Proper(merged) && Apart(merged) && 0 < i < |merged|
    ensures FreeRun(merged, merged[i - 1].end + 1, merged[i].start - 1)
  {
    assert merged[i - 1].start <= merged[i - 1].end <= merged[i - 1].end;
    assert merged[i].start <= merged[i].start <= merged[i].end;
    assert forall k :: 0 <= k < i - 1 ==> merged[k].end + 1 < merged[i - 1].start <= merged[i - 1].end;
    assert forall k :: i < k < |merged| ==> merged[i].start <= merged[i].end < merged[k].start;
    forall m | merged[i - 1].end + 1 <= m <= merged[i].start - 1
      ensures !Covers(merged, m)
    {
    }
  }

  /** Every free run lies between two neighbouring intervals. */
  lemma FreeRunIsBetween(merged: seq<Interval>, from: int, last: int) returns (i: nat)
    requires Proper(merged) && Apart(merged) && FreeRun(merged, from, last)
    ensures 0 < i < |merged| && merged[i - 1].end == from - 1 && merged[i].start == last + 1
  {
    var a: int :| 0 <= a < |merged| && merged[a].start <= from - 1 <= merged[a].end;
    var b: int :| 0 <= b < |merged| && merged[b].start <= last + 1 <= merged[b].end;
    assert !Covers(merged, from) && !Covers(merged, last);
    assert merged[a].end == from - 1;
    assert merged[b].start == last + 1;
    assert forall j :: 0 <= j < a ==> merged[j].end < merged[a].start;
    assert a < b;
    var next := merged[a + 1];
    assert Covers(merged, next.start);
    assert a + 1 < b ==> from <= next.start <= last;
    assert b == a + 1;
    i := b;
  }

  lemma GapIsFreeRun(merged: seq<Interval>, gap: Gap)
    requires Proper(merged) && Apart(merged) && gap in Gaps(merged)
    ensures FreeRun(merged, gap.from, gap.to - 1) && gap.months == gap.to - gap.from && gap.months >= 3
  {
    hide Gaps, FreeRun, Proper, Apart;
    GapsMeaning(merged, gap);
    var i :| 0 < i < |merged| && gap in GapBetween(merged[i - 1], merged[i]);
    BetweenIsFree(merged, i);
  }

  lemma FreeRunIsGap(merged: seq<Interval>, gap: Gap)
    requires Proper(merged) && Apart(merged)
    requires FreeRun(merged, gap.from, gap.to - 1) && gap.months == gap.to - gap.from && gap.months >= 3
    ensures gap in Gaps(merged)
  {
    hide Gaps, FreeRun, Proper, Apart;
    var i := FreeRunIsBetween(merged, gap.from, gap.to - 1);
    GapsMeaning(merged, gap);
    assert gap in GapBetween(merged[i - 1], merged[i]);
  }

  /** The reported gaps are exactly the longest stretches of at least three months without work. */
  lemma GapsAreFreeRuns(merged: seq<Interval>, gap: Gap)
    requires Proper(merged) && Apart(merged)
    ensures gap in Gaps(merged) <==>
              FreeRun(merged, gap.from, gap.to - 1) && gap.months == gap.to - gap.from && gap.months >= 3
  {
    hide Gaps, FreeRun, Proper, Apart;
    if gap in Gaps(merged) {
      GapIsFreeRun(merged, gap);
    }
    if FreeRun(merged, gap.from, gap.to - 1) && gap.months == gap.to - gap.from && gap.months >= 3 {
      FreeRunIsGap(merged, gap);
    }
  }

  lemma CareerGaps(roles: seq<Role>, today: int, gap: Gap)
    ensures gap in EmploymentOf(roles, today).gaps <==>
              && gap.months == gap.to - gap.from && gap.months >= 3
              && WorkedIn(roles, today, gap.from - 1) && WorkedIn(roles, today, gap.to)
              && forall m :: gap.from <= m < gap.to ==> !WorkedIn(roles, today, m)
  {
    var merged := Merged(Intervals(roles, today));
    CareerIsApart(roles, today);
    GapsAreFreeRuns(merged, gap);
    hide Merged, Intervals, Gaps, WorkedIn, Covers;
    forall m
      ensures Covers(merged, m) <==> WorkedIn(roles, today, m)
    {
      CareerIsCovered(roles, today, m);
    }
  }

  function FreeMonths(merged: seq<Interval>): int {
    if |merged| < 2 then 0
    else FreeMonths(merged[..|merged| - 1]) + MonthsBetween(merged[|merged| - 2].end, merged[|merged| - 1].start)
  }

  /** Worked and free months together make up the whole span of a career. */
  lemma {:induction false} WorkedAndFree(merged: seq<Interval>)
    requires Proper(merged) && Apart(merged) && merged != []
    ensures TotalMonths(merged) + FreeMonths(merged) == merged[|merged| - 1].end - merged[0].start + 1
  {
    if |merged| > 1 {
      var n := |merged| - 1;
      WorkedAndFree(merged[..n]);
      assert merged[n - 1].end + 1 < merged[n].start;
    } else {
      assert merged[..0] == [];
    }
  }

  ghost function FreeIn(roles: seq<Role>, today: int, first: int, last: int): (s: set<int>)
    ensures forall m :: m in s <==> first <= m <= last && !WorkedIn(roles, today, m)
  {
    Span(first, last) - CareerMonths(roles, today)
  }

  /** The first and the last month in which any role was held. */
  ghost predicate Bounds(roles: seq<Role>, today: int, first: int, last: int) {
    && WorkedIn(roles, today, first) && WorkedIn(roles, today, last)
    && forall m :: WorkedIn(roles, today, m) ==> first <= m <= last
  }

  /** Total experience and the months without any role add up to the span of the career. */
  lemma CareerAddsUp(roles: seq<Role>, today: int, first: int, last: int)
    requires Bounds(roles, today, first, last)
    ensures EmploymentOf(roles, today).totalMonths + |FreeIn(roles, today, first, last)| == last - first + 1
  {
    TotalIsMonthsWorked(roles, today);
    hide EmploymentOf, CareerMonths, WorkedIn;
    var worked, free, span := CareerMonths(roles, today), FreeIn(roles, today, first, last), Span(first, last);
    hide FreeIn;
    SpanSize(first, last);
    forall m
      ensures m in span <==> m in worked + free
    {
    }
    assert span == worked + free;
    DisjointSize(worked, free);
    assert first in span;
  }

  lemma CoveredFromFirst(merged: seq<Interval>, first: int, last: int)
    requires Proper(merged) && Apart(merged) && Covers(merged, first) && Covers(merged, last)
    requires forall m :: Covers(merged, m) ==> first <= m <= last
    ensures merged != [] && merged[0].start == first && merged[|merged| - 1].end == last
  {
    var n := |merged| - 1;
    assert forall k :: 0 < k < |merged| ==> merged[0].end + 1 < merged[k].start;
    assert forall k :: 0 <= k < n ==> merged[k].end + 1 < merged[n].start;
    var i :| 0 <= i < |merged| && merged[i].start <= first <= merged[i].end;
    var j :| 0 <= j < |merged| && merged[j].start <= last <= merged[j].end;
    assert merged[0].start <= merged[0].end && merged[n].start <= merged[n].end;
    assert Covers(merged, merged[0].start) && Covers(merged, merged[n].end);
  }

  /** What lies between the merged intervals is exactly the months without any role. */
  lemma FreeMonthsAreFree(roles: seq<Role>, today: int, first: int, last: int)
    requires Bounds(roles, today, first, last)
    ensures FreeMonths(Merged(Intervals(roles, today))) == |FreeIn(roles, today, first, last)|
  {
    var merged := Merged(Intervals(roles, today));
    CareerIsApart(roles, today);
    CareerAddsUp(roles, today, first, last);
    assert EmploymentOf(roles, today).totalMonths == TotalMonths(merged);
    hide Merged, Intervals, EmploymentOf, WorkedIn, Covers, FreeIn, TotalMonths, FreeMonths;
    forall m
      ensures Covers(merged, m) <==> WorkedIn(roles, today, m)
    {
      CareerIsCovered(roles, today, m);
    }
    CoveredFromFirst(merged, first, last);
    WorkedAndFree(merged);
  }

  /** The longest gap is one of the reported gaps and none is longer; without gaps it is nothing. */
  lemma {:induction false} LongestIsGap(gaps: seq<Gap>)
    ensures forall i :: 0 <= i < |gaps| ==> gaps[i].months <= Longest(gaps)
    ensures gaps == [] ==> Longest(gaps) == 0
    ensures gaps != [] && (forall i :: 0 <= i < |gaps| ==> gaps[i].months >= 0) ==>
              exists i :: 0 <= i < |gaps| && gaps[i].months == Longest(gaps)
  {
    if gaps != [] {
      var n := |gaps| - 1;
      LongestIsGap(gaps[..n]);
      if n > 0 && (forall i :: 0 <= i < |gaps| ==> gaps[i].months >= 0) && Longest(gaps) != gaps[n].months {
        var i :| 0 <= i < n && gaps[..n][i].months == Longest(gaps[..n]);
        assert gaps[i].months == Longest(gaps);
      } else {
        assert gaps[n].months == Longest(gaps) || !(forall i :: 0 <= i < |gaps| ==> gaps[i].months >= 0);
      }
    }
  }

  /** A role held from its start until today counts every month in between, if nothing else was held. */
  lemma CurrentRoleCounts(start: int, today: int)
    requires start <= today
    ensures EmploymentOf([Role(Some(start), None, true)], today).totalMonths == today - start + 1
  {
    var roles := [Role(Some(start), None, true)];
    assert roles[0] in roles;
    assert forall m :: WorkedIn(roles, today, m) <==> Spans(roles[0], today, m);
    hide EmploymentOf;
    TotalIsMonthsWorked(roles, today);
    assert CareerMonths(roles, today) == Span(start, today);
    SpanSize(start, today);
  }
}
