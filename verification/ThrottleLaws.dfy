/** What fixed windows bound, over whole histories of events. */
module ThrottleLaws {
  import opened Wrappers
  import opened Integers
  import opened Throttle

  // ----- histories of one scope -----

  /** The counter after the events of a history, oldest first. */
  function After(history: seq<int>, window: int): Option<Counter> {
    if history == [] then None
    else Some(Bumped(After(history[..|history| - 1], window), window, history[|history| - 1]))
  }

  ghost predicate NonDecreasing(history: seq<int>) {
    forall i, j :: 0 <= i < j < |history| ==> history[i] <= history[j]
  }

  /** Whether the last event of a history was let through. */
  predicate Admitted(history: seq<int>, window: int, limit: int)
    requires history != []
  {
    After(history, window).value.count <= limit
  }

  function One(b: bool): nat { if b then 1 else 0 }

  /** How many events from `from` up to but not at `to` were let through. */
  function AdmittedWithin(history: seq<int>, window: int, limit: int, from: int, to: int): nat {
    if history == [] then 0
    else AdmittedWithin(history[..|history| - 1], window, limit, from, to)
         + One(from <= history[|history| - 1] < to && Admitted(history, window, limit))
  }

  /** How many events were let through in the window opened at `start`. */
  function AdmittedOf(history: seq<int>, window: int, limit: int, start: int): nat {
    if history == [] then 0
    else AdmittedOf(history[..|history| - 1], window, limit, start)
         + One(After(history, window).value.windowStart == start && Admitted(history, window, limit))
  }

  // ----- one window -----

  lemma {:induction false} CounterIsPast(history: seq<int>, window: int)
    requires NonDecreasing(history) && history != []
    ensures After(history, window).value.count >= 1
    ensures After(history, window).value.windowStart <= history[|history| - 1]
    ensures window > 0 ==> history[|history| - 1] < After(history, window).value.windowStart + window
  {
    if |history| > 1 {
      CounterIsPast(history[..|history| - 1], window);
    }
  }

  /** What has been let through in each window so far. */
  ghost predicate WindowsHold(history: seq<int>, window: int, limit: int) {
    && (forall start :: AdmittedOf(history, window, limit, start) <= Max(0, limit))
    && (history != [] ==>
          var row := After(history, window).value;
          && AdmittedOf(history, window, limit, row.windowStart) == Max(0, Min(row.count, limit))
          && forall start :: start > row.windowStart ==> AdmittedOf(history, window, limit, start) == 0)
  }

  lemma {:induction false} EachWindow(history: seq<int>, window: int, limit: int)
    requires window > 0 && NonDecreasing(history)
    ensures WindowsHold(history, window, limit)
  {
    if history != [] {
      var init := history[..|history| - 1];
      EachWindow(init, window, limit);
      var start := After(history, window).value.windowStart;
      if init != [] {
        CounterIsPast(init, window);
        assert init[|init| - 1] <= history[|history| - 1];
        var was, row := After(init, window).value, After(history, window).value;
        assert row == was.(count := was.count + 1) || (row.count == 1 && row.windowStart > was.windowStart);
        assert AdmittedOf(init, window, limit, start) ==
               if start == was.windowStart then Max(0, Min(was.count, limit)) else 0;
        assert AdmittedOf(history, window, limit, start) == Max(0, Min(row.count, limit));
      } else {
        assert After(history, window) == Some(Counter(history[0], 1));
        assert AdmittedOf(init, window, limit, start) == 0;
        assert AdmittedOf(history, window, limit, start) == Max(0, Min(1, limit));
      }
    }
  }

  /** No window ever lets more than the limit through. */
  lemma WindowIsBounded(history: seq<int>, window: int, limit: nat, start: int)
    requires window > 0 && NonDecreasing(history)
    ensures AdmittedOf(history, window, limit, start) <= limit
  {
    EachWindow(history, window, limit);
  }

  // ----- any stretch of one window's length -----

  /** What a stretch of one window's length can have let through so far, by where the current window began. */
  ghost predicate StretchHolds(history: seq<int>, window: int, limit: int, from: int) {
    var admitted := AdmittedWithin(history, window, limit, from, from + window);
    if history == [] then admitted == 0
    else
      var row := After(history, window).value;
      && (history[|history| - 1] < from ==> admitted == 0)
      && (if row.windowStart < from then admitted <= Max(0, Min(row.count, limit) - 1)
          else if row.windowStart < from + window then admitted <= Max(0, limit - 1) + Max(0, Min(row.count, limit))
          else admitted <= Max(0, 2 * limit - 1))
  }

  lemma {:induction false} EachStretch(history: seq<int>, window: int, limit: int, from: int)
    requires window > 0 && NonDecreasing(history)
    ensures StretchHolds(history, window, limit, from)
  {
    if history != [] {
      var init := history[..|history| - 1];
      EachStretch(init, window, limit, from);
      CounterIsPast(history, window);
      if init != [] {
        CounterIsPast(init, window);
        assert init[|init| - 1] <= history[|history| - 1];
      }
    }
  }

  /**
   Any half-open stretch of one window's length lets through less than twice the limit: a window opens with
   its first event, so when its successor opens within the stretch, that first event lies before it.
   */
  lemma StretchIsBounded(history: seq<int>, window: int, limit: nat, from: int)
    requires window > 0 && NonDecreasing(history)
    ensures AdmittedWithin(history, window, limit, from, from + window) <= Max(0, 2 * limit - 1)
  {
    EachStretch(history, window, limit, from);
  }

  /** The bound is met: with a limit of 2, three events pass within one window's length. */
  lemma StretchBoundIsMet()
    ensures NonDecreasing([0, 9, 10, 10])
    ensures AdmittedWithin([0, 9, 10, 10], 10, 2, 9, 19) == 3
  {
    var all := [0, 9, 10, 10];
    assert all[..3] == [0, 9, 10] && all[..3][..2] == [0, 9];
    assert all[..3][..2][..1] == [0] && all[..3][..2][..1][..0] == [];
    assert AdmittedWithin(all[..3][..2][..1][..0], 10, 2, 9, 19) == 0;
    assert After(all[..3][..2][..1], 10) == Some(Counter(0, 1));
    assert After(all[..3][..2], 10) == Some(Counter(0, 2));
    assert After(all[..3], 10) == Some(Counter(10, 1));
    assert After(all, 10) == Some(Counter(10, 2));
    assert AdmittedWithin(all[..3][..2][..1], 10, 2, 9, 19) == 0;
    assert AdmittedWithin(all[..3][..2], 10, 2, 9, 19) == 1;
    assert AdmittedWithin(all[..3], 10, 2, 9, 19) == 2;
  }

  // ----- the lock -----

  /** While the window lasts, more events keep it: it neither moves nor forgets. */
  lemma {:induction false} WindowStands(history: seq<int>, more: seq<int>, window: int)
    requires history != []
    requires forall i :: 0 <= i < |more| ==> more[i] < After(history, window).value.windowStart + window
    ensures
      var before, after := After(history, window).value, After(history + more, window).value;
      after.windowStart == before.windowStart && after.count == before.count + |more|
  {
    if more == [] {
      assert history + more == history;
    } else {
      var init := more[..|more| - 1];
      WindowStands(history, init, window);
      assert (history + more)[..|history + more| - 1] == history + init;
    }
  }

  /** Once the limit is reached the scope stays locked, whatever else is tried, until the window ends, and no longer. */
  lemma LockedUntilWindowEnds(history: seq<int>, more: seq<int>, window: int, limit: nat, now: int)
    requires history != [] && After(history, window).value.count >= limit
    requires forall i :: 0 <= i < |more| ==> more[i] < After(history, window).value.windowStart + window
    ensures Seen(After(history + more, window), limit, window, now).allowed <==>
              now >= After(history, window).value.windowStart + window
  {
    WindowStands(history, more, window);
  }

  ghost predicate Running(row: Option<Counter>, window: int, now: int) {
    row.Some? && now - window < row.value.windowStart
  }

  /**
   A peek says what a hit at the same moment would say exactly when a window is running or the limit is
   positive: with no window, a peek allows even what a limit of nothing refuses.
   */
  lemma PeekForetellsHit(row: Option<Counter>, window: int, limit: int, now: int)
    ensures (Seen(row, limit, window, now).allowed <==> Bumped(row, window, now).count <= limit)
       <==> Running(row, window, now) || limit >= 1
    ensures Bumped(row, window, now).count == Seen(row, limit, window, now).count + 1
    ensures !Running(row, window, now) ==> Seen(row, limit, window, now).retryAfterSeconds == 0
  {
  }

  /**
   Waiting for as long as a refusal advises is enough exactly when less than a second remains of the window
   or whole seconds do: the advice cuts the fraction off.
   */
  lemma RetryAdvice(row: Counter, window: int, limit: int, now: int)
    requires now - window < row.windowStart && row.count >= limit
    ensures
      var remaining := row.windowStart + window - now;
      Seen(Some(row), limit, window, now + Seen(Some(row), limit, window, now).retryAfterSeconds * 1_000_000).allowed
      <==> remaining < 1_000_000 || remaining % 1_000_000 == 0
  {
    var remaining := row.windowStart + window - now;
    assert remaining == remaining / SECOND * SECOND + remaining % SECOND;
  }

  // ----- scopes do not meddle with each other -----

  datatype Event = Counted(scope: string, now: int) | Cleared(scope: string)

  /** The table after a history of events over many scopes. */
  function Table(events: seq<Event>, window: int): map<string, Counter> {
    if events == [] then map[]
    else
      var before := Table(events[..|events| - 1], window);
      match events[|events| - 1]
      case Counted(scope, now) =>
        before[scope := Bumped(if scope in before then Some(before[scope]) else None, window, now)]
      case Cleared(scope) => before - {scope}
  }

  /** A scope's own events since it was last cleared. */
  function Own(events: seq<Event>, scope: string): seq<int> {
    if events == [] then []
    else
      var before := Own(events[..|events| - 1], scope);
      match events[|events| - 1]
      case Counted(s, now) => if s == scope then before + [now] else before
      case Cleared(s) => if s == scope then [] else before
  }

  /** The row of a scope depends on that scope's events since its last clearing, and on nothing else. */
  lemma {:induction false} ScopesApart(events: seq<Event>, window: int, scope: string)
    ensures
      var table := Table(events, window);
      (if scope in table then Some(table[scope]) else None) == After(Own(events, scope), window)
  {
    if events != [] {
      ScopesApart(events[..|events| - 1], window, scope);
      var before := Own(events[..|events| - 1], scope);
      if events[|events| - 1].Counted? {
        assert (before + [events[|events| - 1].now])[..|before|] == before;
      }
    }
  }
}
