/** Fixed-window throttling (services/throttle.py). Times are in microseconds. */
module Throttle {
  import opened Wrappers
  import opened Integers

  const SECOND := 1_000_000

  datatype Counter = Counter(windowStart: int, count: nat)
  datatype Decision = Decision(allowed: bool, count: nat, retryAfterSeconds: int)

  /** Python's `int()` cuts a fraction of a second off towards zero. */
  function WholeSeconds(x: int): int {
    if x >= 0 then x / SECOND else -(-x / SECOND)
  }

  function RetryAfter(windowStart: int, window: int, now: int): int {
    Max(1, WholeSeconds(windowStart + window - now))
  }

  /** One event: it opens a new window when the old one has run out. */
  function Bumped(row: Option<Counter>, window: int, now: int): Counter {
    if row == None || row.value.windowStart <= now - window then Counter(now, 1)
    else row.value.(count := row.value.count + 1)
  }

  class AuthThrottle {
    var rows: map<string, Counter>

    constructor ()
      ensures rows == map[]
    {
      rows := map[];
    }

    function Row(scope: string): Option<Counter>
      reads this
    {
      if scope in rows then Some(rows[scope]) else None
    }

    /** Count one event, and say whether it is within the limit. */
    method Hit(scope: string, limit: int, windowSeconds: int, now: int) returns (d: Decision)
      modifies this
      ensures rows == old(rows)[scope := Bumped(old(Row(scope)), windowSeconds * SECOND, now)]
      ensures d.count == rows[scope].count && (d.allowed <==> rows[scope].count <= limit)
      ensures d.retryAfterSeconds == RetryAfter(rows[scope].windowStart, windowSeconds * SECOND, now)
    {
      var expiredBefore := now - windowSeconds * SECOND;
      if scope !in rows {
        rows := rows[scope := Counter(now, 1)];
      } else {
        var expired := rows[scope].windowStart <= expiredBefore;
        rows := rows[scope := Counter(if expired then now else rows[scope].windowStart,
                                      if expired then 1 else rows[scope].count + 1)];
      }
      var row := rows[scope];
      d := Decision(row.count <= limit, row.count, RetryAfter(row.windowStart, windowSeconds * SECOND, now));
    }

    /** Ask without counting the question. */
    method Peek(scope: string, limit: int, windowSeconds: int, now: int) returns (d: Decision)
      ensures d == Seen(Row(scope), limit, windowSeconds * SECOND, now)
    {
      if scope !in rows { return Decision(true, 0, 0); }
      var row := rows[scope];
      if row.windowStart <= now - windowSeconds * SECOND { return Decision(true, 0, 0); }
      d := Decision(row.count < limit, row.count, RetryAfter(row.windowStart, windowSeconds * SECOND, now));
    }

    method Clear(scope: string)
      modifies this
      ensures rows == map s | s in old(rows) && s != scope :: old(rows)[s]
    {
      rows := rows - {scope};
    }
  }

  function Seen(row: Option<Counter>, limit: int, window: int, now: int): Decision {
    if row == None || row.value.windowStart <= now - window then Decision(true, 0, 0)
    else Decision(row.value.count < limit, row.value.count, RetryAfter(row.value.windowStart, window, now))
  }
}
