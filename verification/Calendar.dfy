/**
  UTC timestamps and the monthly usage window of apps/billing.

  A timestamp is the record the service inspects (year, month, day, microsecond
  of the day).  Billing only ever compares timestamps, so the clock of the model
  is an integer that preserves their order exactly.
*/
module Calendar {

  const DAY := 86_400_000_000
  const MONTH := 31 * DAY

  datatype Timestamp = Timestamp(year: int, month: int, day: int, micro: int)

  predicate WellFormed(t: Timestamp) {
    1 <= t.month <= 12 && 1 <= t.day <= 31 && 0 <= t.micro < DAY
  }

  /** Field by field order, as timestamps of one zone compare. */
  predicate Before(a: Timestamp, b: Timestamp) {
    a.year < b.year
    || (a.year == b.year && (a.month < b.month
        || (a.month == b.month && (a.day < b.day || (a.day == b.day && a.micro < b.micro)))))
  }

  /** The position of a timestamp on the integer clock. */
  function Instant(t: Timestamp): int {
    (t.year * 12 + t.month - 1) * MONTH + (t.day - 1) * DAY + t.micro
  }

  /** The first instant of a timestamp's month and of the next month. */
  function CurrentMonthWindow(now: Timestamp): (window: (Timestamp, Timestamp)) {
    var start := Timestamp(now.year, now.month, 1, 0);
    var end := if now.month == 12 then Timestamp(now.year + 1, 1, 1, 0)
               else Timestamp(now.year, now.month + 1, 1, 0);
    (start, end)
  }

  /** The same window computed on the clock alone. */
  function WindowStart(now: int): int { now / MONTH * MONTH }

  function WindowEnd(now: int): int { WindowStart(now) + MONTH }

  lemma MonthBounds(t: Timestamp)
    requires WellFormed(t)
    ensures (t.year * 12 + t.month - 1) * MONTH <= Instant(t) < (t.year * 12 + t.month) * MONTH
  {
    assert 0 <= (t.day - 1) * DAY + t.micro < MONTH;
  }

  lemma MonthOrder(m: int, n: int)
    requires m < n
    ensures (m + 1) * MONTH <= n * MONTH
  {
  }

  /** The integer clock preserves and reflects the order of timestamps. */
  lemma InstantIsOrderIsomorphic(a: Timestamp, b: Timestamp)
    requires WellFormed(a) && WellFormed(b)
    ensures Before(a, b) <==> Instant(a) < Instant(b)
    ensures a == b <==> Instant(a) == Instant(b)
  {
    var m, n := a.year * 12 + a.month - 1, b.year * 12 + b.month - 1;
    MonthBounds(a);
    MonthBounds(b);
    if m < n {
      MonthOrder(m, n);
    } else if n < m {
      MonthOrder(n, m);
    } else {
      assert a.year == b.year && a.month == b.month;
    }
  }

  lemma QuotientOf(m: int, r: int)
    requires 0 <= r < MONTH
    ensures (m * MONTH + r) / MONTH == m
  {
  }

  /**
    The calendar computation, December branch included, is the clock's window:
    it holds its own timestamp, and its length is one month slot.
  */
  lemma CalendarWindowIsClockWindow(now: Timestamp)
    requires WellFormed(now)
    ensures var (start, end) := CurrentMonthWindow(now);
            && WellFormed(start) && WellFormed(end)
            && Instant(start) == WindowStart(Instant(now))
            && Instant(end) == WindowEnd(Instant(now))
            && !Before(now, start) && Before(now, end)
  {
    var m := now.year * 12 + now.month - 1;
    QuotientOf(m, (now.day - 1) * DAY + now.micro);
    var (start, end) := CurrentMonthWindow(now);
    assert Instant(start) == m * MONTH;
    assert Instant(end) == (m + 1) * MONTH;
    MonthBounds(now);
    InstantIsOrderIsomorphic(now, start);
    InstantIsOrderIsomorphic(now, end);
  }

  /**
    The windows tile the clock: an instant lies in the window of another exactly
    when both have the same window, and each window starts where one ends.
  */
  lemma WindowsTile(a: int, b: int)
    ensures WindowStart(a) <= a < WindowEnd(a)
    ensures WindowStart(a) <= b < WindowEnd(a) <==> WindowStart(b) == WindowStart(a)
    ensures WindowStart(WindowEnd(a)) == WindowEnd(a)
  {
    var m, n := a / MONTH, b / MONTH;
    QuotientOf(m + 1, 0);
    if m < n {
      MonthOrder(m, n);
    } else if n < m {
      MonthOrder(n, m);
    }
  }
}
