/** Employment arithmetic (domain/derived.py) over months counted from year 0: merging, totals, gaps. */
module Derived {
  import opened Wrappers
  import opened Sorting
  import opened Integers

  const GAP_MIN_MONTHS := 3

  /** From the first month to the last, both included. */
  datatype Interval = Interval(start: int, end: int)

  /** A role as stated: months that could not be read are missing. */
  datatype Role = Role(start: Option<int>, end: Option<int>, current: bool)

  /** `from` is the first month without work, `to` the month work resumed. */
  datatype Gap = Gap(from: int, to: int, months: int)

  function MonthsInclusive(start: int, end: int): int {
    Max(0, end - start + 1)
  }

  function MonthsBetween(prevEnd: int, nextStart: int): int {
    Max(0, nextStart - prevEnd - 1)
  }

  /** A role without a start, without a known end, or ending before it starts, has no interval. */
  function IntervalOf(role: Role, today: int): Option<Interval> {
    match role.start
    case None => None
    case Some(start) =>
      var end := if role.end.Some? then role.end else if role.current then Some(today) else None;
      if end.Some? && start <= end.value then Some(Interval(start, end.value)) else None
  }

  function Stated(roles: seq<Role>, today: int): seq<Interval> {
    if roles == [] then []
    else
      var last := IntervalOf(roles[|roles| - 1], today);
      Stated(roles[..|roles| - 1], today) + if last.Some? then [last.value] else []
  }

  predicate Earlier(a: Interval, b: Interval) {
    a.start < b.start || (a.start == b.start && a.end <= b.end)
  }

  function Intervals(roles: seq<Role>, today: int): seq<Interval> {
    Sort(Earlier, Stated(roles, today))
  }

  /** An interval that overlaps or touches the last one extends it. */
  predicate Touches(last: Interval, next: Interval) {
    MonthsBetween(last.end, next.start) == 0 && next.start <= last.end + 1
  }

  function Joined(merged: seq<Interval>, next: Interval): seq<Interval> {
    if merged != [] && Touches(merged[|merged| - 1], next) then
      var last := merged[|merged| - 1];
      merged[..|merged| - 1] + [Interval(last.start, Max(last.end, next.end))]
    else merged + [next]
  }

  function Merged(intervals: seq<Interval>): seq<Interval> {
    if intervals == [] then []
    else Joined(Merged(intervals[..|intervals| - 1]), intervals[|intervals| - 1])
  }

  method MergeIntervals(intervals: seq<Interval>) returns (merged: seq<Interval>)
    ensures merged == Merged(intervals)
  {
    merged := [];
    for i := 0 to |intervals|
      invariant merged == Merged(intervals[..i])
    {
      assert intervals[..i + 1][..i] == intervals[..i];
      var next := intervals[i];
      var n := |merged|;
      if n > 0 && MonthsBetween(merged[n - 1].end, next.start) == 0 && next.start <= merged[n - 1].end + 1 {
        merged := merged[n - 1 := Interval(merged[n - 1].start, Max(merged[n - 1].end, next.end))];
      } else {
        merged := merged + [next];
      }
    }
    assert intervals[..|intervals|] == intervals;
  }

  function TotalMonths(merged: seq<Interval>): int {
    if merged == [] then 0
    else TotalMonths(merged[..|merged| - 1])
         + MonthsInclusive(merged[|merged| - 1].start, merged[|merged| - 1].end)
  }

  function GapBetween(a: Interval, b: Interval): seq<Gap> {
    var months := MonthsBetween(a.end, b.start);
    if months >= GAP_MIN_MONTHS then [Gap(a.end + 1, b.start, months)] else []
  }

  function Gaps(merged: seq<Interval>): seq<Gap> {
    if |merged| < 2 then []
    else Gaps(merged[..|merged| - 1]) + GapBetween(merged[|merged| - 2], merged[|merged| - 1])
  }

  datatype Employment = Employment(totalMonths: int, gaps: seq<Gap>, maxGap: int)

  function Longest(gaps: seq<Gap>): int {
    if gaps == [] then 0 else Max(Longest(gaps[..|gaps| - 1]), gaps[|gaps| - 1].months)
  }

  function EmploymentOf(roles: seq<Role>, today: int): Employment {
    var merged := Merged(Intervals(roles, today));
    Employment(TotalMonths(merged), Gaps(merged), Longest(Gaps(merged)))
  }

  method ComputeEmployment(roles: seq<Role>, today: int) returns (e: Employment)
    ensures e == EmploymentOf(roles, today)
  {
    var stated: seq<Interval> := [];
    for i := 0 to |roles|
      invariant stated == Stated(roles[..i], today)
    {
      assert roles[..i + 1][..i] == roles[..i];
      if roles[i].start == None { continue; }
      var start, end := roles[i].start.value, roles[i].end;
      if end == None {
        if !roles[i].current { continue; }
        end := Some(today);
      }
      if end.value < start { continue; }
      stated := stated + [Interval(start, end.value)];
    }
    assert roles[..|roles|] == roles;
    var merged := MergeIntervals(Sort(Earlier, stated));
    var total := 0;
    for i := 0 to |merged|
      invariant total == TotalMonths(merged[..i])
    {
      assert merged[..i + 1][..i] == merged[..i];
      total := total + MonthsInclusive(merged[i].start, merged[i].end);
    }
    assert merged[..|merged|] == merged;
    var gaps, longest := FindGaps(merged);
    e := Employment(total, gaps, longest);
  }

  lemma GapsSnoc(merged: seq<Interval>, i: nat)
    requires 0 < i < |merged|
    ensures Gaps(merged[..i + 1]) == Gaps(merged[..i]) + GapBetween(merged[i - 1], merged[i])
    ensures Gaps(merged[..i]) + [] == Gaps(merged[..i])
  {
    hide GapBetween;
    assert merged[..i + 1][..i] == merged[..i];
  }

  lemma LongestSnoc(gaps: seq<Gap>, gap: Gap)
    ensures Longest(gaps + [gap]) == Max(Longest(gaps), gap.months)
  {
    assert (gaps + [gap])[..|gaps|] == gaps;
  }

  method FindGaps(merged: seq<Interval>) returns (gaps: seq<Gap>, longest: int)
    ensures gaps == Gaps(merged) && longest == Longest(gaps)
  {
    gaps, longest := [], 0;
    if |merged| < 2 { return; }
    for i := 1 to |merged|
      invariant gaps == Gaps(merged[..i]) && longest == Longest(gaps)
    {
      hide Gaps, Longest;
      GapsSnoc(merged, i);
      var months := MonthsBetween(merged[i - 1].end, merged[i].start);
      if months >= GAP_MIN_MONTHS {
        var gap := Gap(merged[i - 1].end + 1, merged[i].start, months);
        LongestSnoc(gaps, gap);
        gaps, longest := gaps + [gap], Max(longest, months);
      }
    }
    assert merged[..|merged|] == merged;
  }
}
