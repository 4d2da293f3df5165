/**
  The failure counter that both the source quarantine and the LLM circuit breaker
  implement: after enough consecutive failures, attempts are refused for a while.
*/
module Breaker {
  import opened Common

  datatype Health = Health(failures: nat, blockedUntil: Option<int>)

  /** threshold consecutive failures block further attempts for hold time units. */
  datatype Policy = Policy(threshold: int, hold: int)

  const HEALTHY := Health(0, None)

  /** A threshold below one acts as one: the first failure already reaches it. */
  function Threshold(p: Policy): (n: int)
    ensures n >= 1
  {
    Max(1, p.threshold)
  }

  predicate Blocked(h: Health, now: int) {
    h.blockedUntil.Some? && now < h.blockedUntil.value
  }

  function Fail(p: Policy, h: Health, now: int): Health {
    Health(h.failures + 1, if h.failures + 1 >= p.threshold then Some(now + p.hold) else None)
  }

  datatype Outcome = Failure | Success | Neither

  /** An attempt looks at the gate when it starts and reports its outcome when it ends. */
  datatype Attempt = Attempt(gate: int, end: int, outcome: Outcome)

  function Step(p: Policy, h: Health, a: Attempt): Health {
    if Blocked(h, a.gate) then h
    else match a.outcome
      case Failure => Fail(p, h, a.end)
      case Success => HEALTHY
      case Neither => h
  }

  function Run(p: Policy, h: Health, attempts: seq<Attempt>): Health
    decreases |attempts|
  {
    if attempts == [] then h else Run(p, Step(p, h, attempts[0]), attempts[1..])
  }

  /** The attempts that passed the gate and failed. */
  function Failures(p: Policy, h: Health, attempts: seq<Attempt>): nat
    decreases |attempts|
  {
    if attempts == [] then 0
    else
      (if !Blocked(h, attempts[0].gate) && attempts[0].outcome.Failure? then 1 else 0)
      + Failures(p, Step(p, h, attempts[0]), attempts[1..])
  }

  /** A block exists exactly when the failure count has reached the threshold. */
  ghost predicate Consistent(p: Policy, h: Health) {
    h.blockedUntil.Some? <==> h.failures >= Threshold(p)
  }

  lemma {:induction false} BlockedExactlyAtThreshold(p: Policy, h: Health, attempts: seq<Attempt>)
    requires Consistent(p, h)
    ensures Consistent(p, Run(p, h, attempts))
    decreases |attempts|
  {
    if attempts != [] {
      BlockedExactlyAtThreshold(p, Step(p, h, attempts[0]), attempts[1..]);
    }
  }

  ghost predicate Sequential(attempts: seq<Attempt>) {
    (forall i :: 0 <= i < |attempts| ==> attempts[i].gate <= attempts[i].end)
    && (forall i, j :: 0 <= i < j < |attempts| ==> attempts[i].end <= attempts[j].gate)
  }

  ghost predicate Within(attempts: seq<Attempt>, from: int, to: int) {
    forall i :: 0 <= i < |attempts| ==> from <= attempts[i].end <= to
  }

  ghost predicate NoSuccess(attempts: seq<Attempt>) {
    forall i :: 0 <= i < |attempts| ==> !attempts[i].outcome.Success?
  }

  lemma DivAddOne(x: int, d: int)
    requires d > 0
    ensures (x + d) / d == x / d + 1
  {
    var q, r := x / d, x % d;
    assert x + d == (q + 1) * d + r;
    DivUnique(x + d, d, q + 1, r);
  }

  lemma DivUnique(x: int, d: int, q: int, r: int)
    requires d > 0 && 0 <= r < d && x == q * d + r
    ensures x / d == q
  {
    var e := x / d - q;
    assert e * d == r - x % d;
    assert e >= 1 ==> e * d >= d;
    assert e <= -1 ==> e * d <= -d;
  }

  lemma DivMonotone(x: int, y: int, d: int)
    requires d > 0 && x <= y
    ensures x / d <= y / d
  {
    var m, n := x / d, y / d;
    assert m > n ==> m * d >= (n + 1) * d;
  }

  /** The most failures that can still happen up to an instant, for attempts that end from another on. */
  function Allowance(p: Policy, h: Health, from: int, to: int): int
    requires p.hold > 0
  {
    if h.failures < Threshold(p) then Threshold(p) - h.failures + (to - from) / p.hold
    else
      var first := if h.blockedUntil.Some? then Max(h.blockedUntil.value, from) else from;
      if to < first then 0 else 1 + (to - first) / p.hold
  }

  lemma {:induction false} FailuresWithinAllowance(p: Policy, h: Health, attempts: seq<Attempt>, from: int, to: int)
    requires p.hold > 0 && from <= to && Consistent(p, h)
    requires Sequential(attempts) && Within(attempts, from, to) && NoSuccess(attempts)
    ensures Failures(p, h, attempts) <= Allowance(p, h, from, to)
    decreases |attempts|
  {
    DivMonotone(0, to - from, p.hold);
    if attempts == [] {
      AllowanceIsNotNegative(p, h, from, to);
    } else {
      var a, h' := attempts[0], Step(p, h, attempts[0]);
      assert from <= a.end <= to && !a.outcome.Success?;
      var rest := attempts[1..];
      assert forall i :: 0 <= i < |rest| ==> rest[i] == attempts[i + 1];
      assert Within(rest, a.end, to);
      if h' == h {
        FailuresWithinAllowance(p, h, rest, from, to);
      } else {
        FailuresWithinAllowance(p, h', rest, a.end, to);
        AllowanceShrinks(p, h, a, from, to);
      }
    }
  }

  lemma AllowanceIsNotNegative(p: Policy, h: Health, from: int, to: int)
    requires p.hold > 0 && from <= to
    ensures Allowance(p, h, from, to) >= 0
  {
    DivMonotone(0, to - from, p.hold);
    if h.blockedUntil.Some? && to >= Max(h.blockedUntil.value, from) {
      DivMonotone(0, to - Max(h.blockedUntil.value, from), p.hold);
    }
  }

  /** Every failure uses up one unit of the allowance. */
  lemma AllowanceShrinks(p: Policy, h: Health, a: Attempt, from: int, to: int)
    requires p.hold > 0 && from <= a.end <= to && a.gate <= a.end && Consistent(p, h)
    requires !Blocked(h, a.gate) && a.outcome.Failure?
    ensures 1 + Allowance(p, Step(p, h, a), a.end, to) <= Allowance(p, h, from, to)
  {
    DivMonotone(to - a.end, to - from, p.hold);
    if h.failures + 1 >= Threshold(p) {
      DivAddOne(to - a.end - p.hold, p.hold);
      DivMonotone(0, to - a.end, p.hold);
      if h.failures >= Threshold(p) {
        DivMonotone(to - a.end, to - Max(h.blockedUntil.value, from), p.hold);
      }
    }
  }

  /**
    The rate bound: attempts that follow one another, with no success among them
    and ending within a span of length T, contain at most threshold + T / hold
    failures, from whatever state they start in.
  */
  lemma FailureRateBound(p: Policy, h: Health, attempts: seq<Attempt>, from: int, span: nat)
    requires p.hold > 0 && Consistent(p, h)
    requires Sequential(attempts) && Within(attempts, from, from + span) && NoSuccess(attempts)
    ensures Failures(p, h, attempts) <= Threshold(p) + span / p.hold
  {
    FailuresWithinAllowance(p, h, attempts, from, from + span);
    if h.failures >= Threshold(p) {
      DivMonotone(from + span - Max(h.blockedUntil.value, from), span, p.hold);
      DivMonotone(0, span, p.hold);
    }
  }

  /** n failures at one instant each, spaced hold apart. */
  function Spaced(first: int, hold: int, n: nat): (s: seq<Attempt>)
    ensures |s| == n && forall i :: 0 <= i < n ==> s[i] == Attempt(first + i * hold, first + i * hold, Failure)
  {
    seq(n, i => Attempt(first + i * hold, first + i * hold, Failure))
  }

  lemma {:induction false} SpacedFailuresAllCount(p: Policy, h: Health, first: int, n: nat)
    requires h.failures + 1 >= p.threshold && !Blocked(h, first)
    ensures Failures(p, h, Spaced(first, p.hold, n)) == n
    decreases n
  {
    if n > 0 {
      var s := Spaced(first, p.hold, n);
      assert s[0] == Attempt(first, first, Failure);
      assert s[1..] == Spaced(first + p.hold, p.hold, n - 1) by {
        forall i | 0 <= i < n - 1
          ensures s[1..][i] == Spaced(first + p.hold, p.hold, n - 1)[i]
        {
          assert (i + 1) * p.hold == i * p.hold + p.hold;
        }
      }
      SpacedFailuresAllCount(p, Step(p, h, s[0]), first + p.hold, n - 1);
    }
  }

  lemma {:induction false} RepeatedFailuresAllCount(p: Policy, h: Health, at: int, n: nat, rest: seq<Attempt>)
    requires h.failures + n < p.threshold && h.blockedUntil.None?
    ensures Failures(p, h, Spaced(at, 0, n) + rest) == n + Failures(p, Health(h.failures + n, None), rest)
    decreases n
  {
    var s := Spaced(at, 0, n);
    if n == 0 {
      assert s + rest == rest;
    } else {
      assert (s + rest)[0] == Attempt(at, at, Failure);
      assert s[1..] == Spaced(at, 0, n - 1);
      assert (s + rest)[1..] == Spaced(at, 0, n - 1) + rest;
      RepeatedFailuresAllCount(p, Health(h.failures + 1, None), at, n - 1, rest);
    }
  }

  /** The bound is attained for every threshold, hold and span. */
  lemma FailureRateBoundIsTight(p: Policy, span: nat) returns (attempts: seq<Attempt>)
    requires p.threshold >= 1 && p.hold > 0
    ensures Sequential(attempts) && Within(attempts, 0, span) && NoSuccess(attempts)
    ensures Failures(p, HEALTHY, attempts) == p.threshold + span / p.hold
  {
    DivMonotone(0, span, p.hold);
    var k := p.threshold - 1;
    var n := 1 + span / p.hold;
    var burst, tail := Spaced(0, 0, k), Spaced(0, p.hold, n);
    attempts := burst + tail;
    RepeatedFailuresAllCount(p, HEALTHY, 0, k, tail);
    SpacedFailuresAllCount(p, Health(k, None), 0, n);
    SpacedIsSequential(0, k, 0);
    SpacedIsSequential(p.hold, n, span);
  }

  lemma ScaleMonotone(i: int, j: int, factor: int)
    requires i <= j && factor >= 0
    ensures i * factor <= j * factor
  {
  }

  lemma FloorBelow(x: int, d: int)
    requires d > 0
    ensures x / d * d <= x
  {
  }

  lemma SpacedIsSequential(hold: int, n: nat, span: int)
    requires 0 <= hold && 0 <= span && (hold == 0 || n <= 1 + span / hold)
    ensures Sequential(Spaced(0, hold, n)) && Within(Spaced(0, hold, n), 0, span)
  {
    var s := Spaced(0, hold, n);
    forall i | 0 <= i < n
      ensures 0 <= i * hold <= span
    {
      ScaleMonotone(0, i, hold);
      if hold > 0 {
        ScaleMonotone(i, span / hold, hold);
        FloorBelow(span, hold);
      }
    }
    forall i, j | 0 <= i < j < n
      ensures i * hold <= j * hold
    {
      ScaleMonotone(i, j, hold);
    }
  }
}
