/** The arithmetic of the score: bounds, extremes, rounding, scaling and monotonicity. */
module ScoreArithmetic {
  import opened Common
  import opened Sorting
  import opened Rules
  import opened ScoreEngine

  // ----------------------------------------- the raw sum, group by group

  function Contribution(env: Env, g: Group): int {
    if Applies(env, g) then Sum(Deltas(g)) else 0
  }

  /** What the groups that apply add up to. */
  function Total(env: Env, gs: seq<Group>): int {
    if gs == [] then 0 else Contribution(env, gs[0]) + Total(env, gs[1..])
  }

  lemma {:induction false} ScoringDeltas(os: seq<Outcome>, id: string, code: string, checks: seq<Check>, applied: bool)
    ensures Sum(Map(Map(os, ScoringItem(id, code, checks, applied)), ItemDelta()))
         == if applied then Sum(Map(os, DeltaOf())) else 0
  {
    if os != [] {
      ScoringDeltas(os[1..], id, code, checks, applied);
      assert Map(os, ScoringItem(id, code, checks, applied))[1..] == Map(os[1..], ScoringItem(id, code, checks, applied));
    }
  }

  lemma {:induction false} RawIsTotal(env: Env, gs: seq<Group>)
    ensures RawScore(ScoringPass(env, gs)) == Total(env, gs)
  {
    if gs != [] {
      hide Applies, Checks, Filter, Map, Sum;
      var g := gs[0];
      ScoringDeltas(Filter(g.outcomes, Scores()), g.id, g.code, Checks(env, g), Applies(env, g));
      RawIsTotal(env, gs[1..]);
      MapAppend(ScoringItems(env, g), ScoringPass(env, gs[1..]), ItemDelta());
      SumAppend(Map(ScoringItems(env, g), ItemDelta()), Map(ScoringPass(env, gs[1..]), ItemDelta()));
    } else {
      assert Map([], ItemDelta()) == [];
    }
  }

  lemma PossibleAppend(xs: seq<int>, ys: seq<int>)
    ensures MinPossible(xs + ys) == MinPossible(xs) + MinPossible(ys)
    ensures MaxPossible(xs + ys) == MaxPossible(xs) + MaxPossible(ys)
  {
    hide Map, Sum;
    MapAppend(xs, ys, Negative());
    MapAppend(xs, ys, Positive());
    SumAppend(Map(xs, Negative()), Map(ys, Negative()));
    SumAppend(Map(xs, Positive()), Map(ys, Positive()));
  }

  ghost predicate NoneNegative(ds: seq<int>) { forall i :: 0 <= i < |ds| ==> ds[i] >= 0 }
  ghost predicate NonePositive(ds: seq<int>) { forall i :: 0 <= i < |ds| ==> ds[i] <= 0 }

  lemma {:induction false} SumBetweenPossible(ds: seq<int>)
    ensures MinPossible(ds) <= 0 <= MaxPossible(ds)
    ensures MinPossible(ds) + MaxPossible(ds) == Sum(ds)
    ensures MinPossible(ds) == 0 <==> NoneNegative(ds)
    ensures MaxPossible(ds) == 0 <==> NonePositive(ds)
  {
    if ds != [] {
      SumBetweenPossible(ds[1..]);
      assert NoneNegative(ds) <==> ds[0] >= 0 && NoneNegative(ds[1..]) by {
        assert forall i :: 1 <= i < |ds| ==> ds[i] == ds[1..][i - 1];
      }
      assert NonePositive(ds) <==> ds[0] <= 0 && NonePositive(ds[1..]) by {
        assert forall i :: 1 <= i < |ds| ==> ds[i] == ds[1..][i - 1];
      }
    }
  }

  /** A group that adds all it can, or subtracts all it can. */
  ghost predicate Best(env: Env, g: Group) {
    if Applies(env, g) then NoneNegative(Deltas(g)) else NonePositive(Deltas(g))
  }

  ghost predicate Worst(env: Env, g: Group) {
    if Applies(env, g) then NonePositive(Deltas(g)) else NoneNegative(Deltas(g))
  }

  /** Every group that could raise the score applies, and none that could lower it. */
  ghost predicate BestCase(env: Env, gs: seq<Group>) { forall i :: 0 <= i < |gs| ==> Best(env, gs[i]) }

  ghost predicate WorstCase(env: Env, gs: seq<Group>) { forall i :: 0 <= i < |gs| ==> Worst(env, gs[i]) }

  lemma ContributionIsWithinRange(env: Env, g: Group)
    ensures MinPossible(Deltas(g)) <= Contribution(env, g) <= MaxPossible(Deltas(g))
    ensures Contribution(env, g) == MaxPossible(Deltas(g)) <==> Best(env, g)
    ensures Contribution(env, g) == MinPossible(Deltas(g)) <==> Worst(env, g)
  {
    hide Applies, Deltas, MinPossible, MaxPossible, Sum, NoneNegative, NonePositive;
    SumBetweenPossible(Deltas(g));
  }

  /** The raw sum lies between the worst and the best possible sums, and meets them exactly in these cases. */
  lemma {:induction false} RawIsWithinRange(env: Env, gs: seq<Group>)
    ensures MinPossible(AllDeltas(gs)) <= Total(env, gs) <= MaxPossible(AllDeltas(gs))
    ensures Total(env, gs) == MaxPossible(AllDeltas(gs)) <==> BestCase(env, gs)
    ensures Total(env, gs) == MinPossible(AllDeltas(gs)) <==> WorstCase(env, gs)
  {
    hide MinPossible, MaxPossible, Best, Worst, Contribution, Deltas;
    if gs == [] {
      SumBetweenPossible([]);
    } else {
      RawIsWithinRange(env, gs[1..]);
      PossibleAppend(Deltas(gs[0]), AllDeltas(gs[1..]));
      ContributionIsWithinRange(env, gs[0]);
      assert forall i :: 1 <= i < |gs| ==> gs[i] == gs[1..][i - 1];
      assert BestCase(env, gs) <==> Best(env, gs[0]) && BestCase(env, gs[1..]);
      assert WorstCase(env, gs) <==> Worst(env, gs[0]) && WorstCase(env, gs[1..]);
    }
  }

  // ----------------------------------------- rounding to cents

  /** s is the number of cents nearest to 100 * n / d, a half going up: stated in whole numbers. */
  ghost predicate NearestCent(s: int, n: int, d: int) {
    20000 * n - d < 2 * (s * d) <= 20000 * n + d
  }

  function Product(x: real, y: real): real { x * y }

  lemma TimesGrows(x: real, y: real, b: real)
    requires b > 0.0
    ensures x < y ==> Product(x, b) < Product(y, b)
    ensures x == y ==> Product(x, b) == Product(y, b)
  {
    if x < y {
      assert (y - x) * b > 0.0;
    }
  }

  lemma TimesOfInts(m: int, n: int)
    ensures Product(m as real, n as real) == (m * n) as real
  {
  }

  lemma TimesDenominator(x: real, n: real, b: real)
    requires b > 0.0 && x == n / b
    ensures Product(x + 0.5, b) == n + 0.5 * b
  {
    assert x * b == n;
  }

  lemma OneMore(f: int, d: int)
    ensures (f + 1) * d == f * d + d
  {
  }

  lemma FloorTimes(f: int, y: real, d: int)
    requires d > 0 && f as real <= y < f as real + 1.0
    ensures (f * d) as real <= Product(y, d as real) < (f * d + d) as real
  {
    hide Product;
    TimesGrows(f as real, y, d as real);
    TimesGrows(y, (f + 1) as real, d as real);
    TimesOfInts(f, d);
    TimesOfInts(f + 1, d);
    OneMore(f, d);
  }

  lemma FloorIsHalfUp(x: real, n: int, d: int)
    requires d > 0 && x == n as real / d as real
    ensures 2 * n - d < 2 * ((x + 0.5).Floor * d) <= 2 * n + d
  {
    hide Product;
    var f := (x + 0.5).Floor;
    FloorTimes(f, x + 0.5, d);
    TimesDenominator(x, n as real, d as real);
    HalvesAway(f * d, n, d);
  }

  lemma HalvesAway(p: int, n: int, d: int)
    requires p as real <= n as real + 0.5 * d as real < (p + d) as real
    ensures 2 * n - d < 2 * p <= 2 * n + d
  {
    assert (2 * p) as real <= (2 * n + d) as real < (2 * p + 2 * d) as real;
  }

  lemma ShareIsWithinOne(n: int, d: int)
    requires 0 <= n <= d && d > 0
    ensures 0.0 <= n as real / d as real <= 1.0
  {
    var q := n as real / d as real;
    assert q * d as real == n as real;
    assert q < 0.0 ==> q * d as real < 0.0;
    assert q > 1.0 ==> q * d as real > d as real;
  }

  /** Within range the clamp never fires, and the score is the nearest cent. */
  lemma ScoreIsNearestCent(raw: int, low: int, high: int)
    requires low <= raw <= high && low < high
    ensures var share := (raw - low) as real / (high - low) as real * 100.0; Clamp(share) == share
    ensures NearestCent(NormalizeScore(raw, low, high), raw - low, high - low)
  {
    var n, d := raw - low, high - low;
    var share := n as real / d as real;
    ShareIsWithinOne(n, d);
    assert Clamp(share * 100.0) == share * 100.0;
    assert share * 100.0 * 100.0 == (10000 * n) as real / d as real;
    FloorIsHalfUp(share * 100.0 * 100.0, 10000 * n, d);
  }

  lemma ProductGap(s: int, t: int, d: int)
    requires t < s && d > 0
    ensures s * d >= t * d + d
  {
    assert (s - t - 1) * d >= 0;
    assert (s - t - 1) * d == s * d - t * d - d;
  }

  /** Larger shares never round to fewer cents; in particular the nearest cent is unique. */
  lemma NearestCentIsMonotone(s: int, n: int, t: int, m: int, d: int)
    requires d > 0 && n <= m && NearestCent(s, n, d) && NearestCent(t, m, d)
    ensures s <= t
  {
    if t < s {
      ProductGap(s, t, d);
    }
  }

  // ----------------------------------------- the score of an evaluation

  /** The score, from the sums over all outcomes, of groups none of which blocks. */
  function ScoreOf(env: Env, gs: seq<Group>): int {
    NormalizeScore(Total(env, gs), MinPossible(AllDeltas(gs)), MaxPossible(AllDeltas(gs)))
  }

  /** What an evaluation that is not blocked returns. */
  lemma UnblockedResult(env: Env, pv: ProgramVersion, gs: seq<Group>, c: Computation)
    requires Evaluate(env, pv, gs) == Some(c) && !c.isBlocked
    ensures var sorted := Sort(gs, GroupKey());
            c.raw == Total(env, sorted) && c.score == ScoreOf(env, sorted)
    ensures c.band == BandOf(c.score) && c.isEligible == (c.score >= 6000)
  {
    hide BlockingPass, ScoringPass, Sort, AnyRaises, NormalizeScore, Messages, PayloadOf, MinPossible, MaxPossible;
    RawIsTotal(env, Sort(gs, GroupKey()));
  }

  ghost predicate NoDelta(ds: seq<int>) { forall i :: 0 <= i < |ds| ==> ds[i] == 0 }

  lemma RangeIsEmptyOnlyWithoutDeltas(ds: seq<int>)
    ensures MinPossible(ds) == MaxPossible(ds) <==> NoDelta(ds)
  {
    hide MinPossible, MaxPossible, Sum;
    SumBetweenPossible(ds);
    assert NoDelta(ds) <==> NoneNegative(ds) && NonePositive(ds);
  }

  /**
    Every score lies between 0.00 and 100.00. Without a delta it is 0.00, so the branch that would award
    100.00 to an empty range is never taken; with one, it is the nearest cent, the best case scores exactly
    100.00 and the worst exactly 0.00.
  */
  lemma ScoreOfGroups(env: Env, gs: seq<Group>)
    ensures var ds := AllDeltas(gs); var s := ScoreOf(env, gs);
            0 <= s <= 10000
            && (NoDelta(ds) ==> Total(env, gs) == 0 && s == 0)
            && (!NoDelta(ds) ==> NearestCent(s, Total(env, gs) - MinPossible(ds), MaxPossible(ds) - MinPossible(ds)))
            && (!NoDelta(ds) && BestCase(env, gs) ==> s == 10000)
            && (!NoDelta(ds) && WorstCase(env, gs) ==> s == 0)
  {
    var ds := AllDeltas(gs);
    hide MinPossible, MaxPossible, Sum, NoDelta, Total, BestCase, WorstCase;
    RawIsWithinRange(env, gs);
    RangeIsEmptyOnlyWithoutDeltas(ds);
    SumBetweenPossible(ds);
    var raw, low, high := Total(env, gs), MinPossible(ds), MaxPossible(ds);
    if low < high {
      ScoreIsNearestCent(raw, low, high);
      hide NormalizeScore;
      var s := NormalizeScore(raw, low, high);
      var n, d := raw - low, high - low;
      assert NearestCent(0, 0, d) && NearestCent(10000, d, d);
      NearestCentIsMonotone(0, 0, s, n, d);
      NearestCentIsMonotone(s, n, 10000, d, d);
      if raw == high {
        NearestCentIsMonotone(10000, d, s, n, d);
      }
      if raw == low {
        NearestCentIsMonotone(s, n, 0, 0, d);
      }
    }
  }

  /** The range of every evaluation that returns a result, blocked or not. */
  lemma ScoreIsWithinRange(env: Env, pv: ProgramVersion, gs: seq<Group>, c: Computation)
    requires Evaluate(env, pv, gs) == Some(c)
    ensures 0 <= c.score <= 10000
    ensures var ds := AllDeltas(Sort(gs, GroupKey()));
            !c.isBlocked ==> MinPossible(ds) <= c.raw <= MaxPossible(ds)
  {
    hide BlockingPass, ScoringPass, Sort, AnyRaises, NormalizeScore, Messages, PayloadOf, MinPossible, MaxPossible, Total, AllDeltas, ScoreOf;
    if !c.isBlocked {
      UnblockedResult(env, pv, gs, c);
      ScoreOfGroups(env, Sort(gs, GroupKey()));
      RawIsWithinRange(env, Sort(gs, GroupKey()));
    }
  }

  // ----------------------------------------- another unit for the deltas

  function ScaleOutcome(k: int): Outcome -> Outcome {
    (o: Outcome) => o.(delta := k * o.delta)
  }

  function ScaleGroup(k: int): Group -> Group {
    (g: Group) => g.(outcomes := Map(g.outcomes, ScaleOutcome(k)))
  }

  function Times(k: int): int -> int { (d: int) => k * d }

  lemma {:induction false} DeltasOfScaled(os: seq<Outcome>, k: int)
    ensures Map(Map(os, ScaleOutcome(k)), DeltaOf()) == Map(Map(os, DeltaOf()), Times(k))
  {
  }

  lemma Distribute(k: int, x: int, y: int)
    ensures k * (x + y) == k * x + k * y && k * (x - y) == k * x - k * y
  {
  }

  lemma ScalingKeepsOrder(k: int, x: int, y: int)
    requires k > 0
    ensures (k * x < k * y <==> x < y) && (k * x == k * y <==> x == y)
  {
    Distribute(k, x, y);
    assert x < y ==> k * (y - x) > 0;
    assert y < x ==> k * (x - y) > 0;
  }

  lemma {:induction false} SumScales(xs: seq<int>, ys: seq<int>, k: int)
    requires |xs| == |ys| && forall i :: 0 <= i < |xs| ==> ys[i] == k * xs[i]
    ensures Sum(ys) == k * Sum(xs)
  {
    if xs != [] {
      SumScales(xs[1..], ys[1..], k);
      Distribute(k, xs[0], Sum(xs[1..]));
    }
  }

  lemma SumsScale(ds: seq<int>, k: int)
    requires k > 0
    ensures Sum(Map(ds, Times(k))) == k * Sum(ds)
    ensures MinPossible(Map(ds, Times(k))) == k * MinPossible(ds)
    ensures MaxPossible(Map(ds, Times(k))) == k * MaxPossible(ds)
  {
    hide Sum, Map;
    var es := Map(ds, Times(k));
    SumScales(ds, es, k);
    forall i | 0 <= i < |ds|
      ensures Negative()(es[i]) == k * Negative()(ds[i]) && Positive()(es[i]) == k * Positive()(ds[i])
    {
      ScalingKeepsOrder(k, ds[i], 0);
      ScalingKeepsOrder(k, 0, ds[i]);
    }
    SumScales(Map(ds, Negative()), Map(es, Negative()), k);
    SumScales(Map(ds, Positive()), Map(es, Positive()), k);
  }

  /** How one scaled group evaluates. */
  lemma ScaledGroup(env: Env, g: Group, k: int)
    requires k > 0
    ensures var h := ScaleGroup(k)(g);
            Contribution(env, h) == k * Contribution(env, g)
            && Deltas(h) == Map(Deltas(g), Times(k))
            && (BlockingItems(env, h) == [] <==> BlockingItems(env, g) == [])
  {
    hide Sort, Matched, Sum, Map, Filter;
    var h := ScaleGroup(k)(g);
    FilterMap(g.outcomes, ScaleOutcome(k), Scores());
    FilterMap(g.outcomes, ScaleOutcome(k), Blocks());
    DeltasOfScaled(Filter(g.outcomes, Scores()), k);
    SumsScale(Deltas(g), k);
    assert Ordered(h) == Ordered(g);
    assert |BlockingItems(env, h)| == |BlockingItems(env, g)|;
  }

  lemma ScaledContribution(env: Env, g: Group, k: int)
    requires k > 0
    ensures Contribution(env, ScaleGroup(k)(g)) == k * Contribution(env, g)
  {
    hide Contribution, Deltas, BlockingItems, ScaleGroup;
    ScaledGroup(env, g, k);
  }

  lemma {:induction false} TotalScales(env: Env, gs: seq<Group>, k: int)
    requires k > 0
    ensures Total(env, Map(gs, ScaleGroup(k))) == k * Total(env, gs)
  {
    hide Contribution, ScaleGroup, Map;
    var hs := Map(gs, ScaleGroup(k));
    if gs != [] {
      assert hs[1..] == Map(gs[1..], ScaleGroup(k)) && hs[0] == ScaleGroup(k)(gs[0]);
      var c, t := Contribution(env, gs[0]), Total(env, gs[1..]);
      TotalScales(env, gs[1..], k);
      ScaledContribution(env, gs[0], k);
      Distribute(k, c, t);
    }
  }

  lemma {:induction false} AllDeltasScale(env: Env, gs: seq<Group>, k: int)
    requires k > 0
    ensures AllDeltas(Map(gs, ScaleGroup(k))) == Map(AllDeltas(gs), Times(k))
  {
    hide Deltas, ScaleGroup, Map, Contribution;
    var hs := Map(gs, ScaleGroup(k));
    if gs != [] {
      assert hs[1..] == Map(gs[1..], ScaleGroup(k)) && hs[0] == ScaleGroup(k)(gs[0]);
      AllDeltasScale(env, gs[1..], k);
      ScaledGroup(env, gs[0], k);
      MapAppend(Deltas(gs[0]), AllDeltas(gs[1..]), Times(k));
    }
  }

  lemma {:induction false} ScalingKeepsBlocking(env: Env, gs: seq<Group>, k: int)
    requires k > 0
    ensures BlockingPass(env, Map(gs, ScaleGroup(k))) == [] <==> BlockingPass(env, gs) == []
  {
    hide BlockingItems, ScaleGroup, Map, Contribution;
    var hs := Map(gs, ScaleGroup(k));
    if gs != [] {
      assert hs[1..] == Map(gs[1..], ScaleGroup(k)) && hs[0] == ScaleGroup(k)(gs[0]);
      ScalingKeepsBlocking(env, gs[1..], k);
      ScaledGroup(env, gs[0], k);
    }
  }

  lemma NearestCentIgnoresTheUnit(s: int, n: int, d: int, k: int)
    requires k > 0 && NearestCent(s, k * n, k * d)
    ensures NearestCent(s, n, d)
  {
    var x, y, z := 20000 * n - d, 2 * (s * d), 20000 * n + d;
    assert k * x == 20000 * (k * n) - k * d && k * z == 20000 * (k * n) + k * d;
    assert k * y == 2 * (s * (k * d));
    assert x >= y ==> k * x >= k * y;
    assert y > z ==> k * y > k * z;
  }

  lemma ScaledScore(raw: int, low: int, high: int, k: int)
    requires k > 0 && low <= raw <= high
    ensures NormalizeScore(k * raw, k * low, k * high) == NormalizeScore(raw, low, high)
  {
    ScalingKeepsOrder(k, low, raw);
    ScalingKeepsOrder(k, raw, high);
    ScalingKeepsOrder(k, low, high);
    ScalingKeepsOrder(k, 0, raw);
    if low < high {
      NonEmptyRangeScales(raw, low, high, k, k * raw, k * low, k * high);
    }
  }

  lemma NonEmptyRangeScales(raw: int, low: int, high: int, k: int, raw': int, low': int, high': int)
    requires k > 0 && low <= raw <= high && low < high && low' <= raw' <= high' && low' < high'
    requires raw' == k * raw && low' == k * low && high' == k * high
    ensures NormalizeScore(raw', low', high') == NormalizeScore(raw, low, high)
  {
    ScoreIsNearestCent(raw, low, high);
    ScoreIsNearestCent(raw', low', high');
    var s, t := NormalizeScore(raw, low, high), NormalizeScore(raw', low', high');
    var n, d := raw - low, high - low;
    hide NormalizeScore;
    Distribute(k, raw, low);
    Distribute(k, high, low);
    hide NearestCent;
    NearestCentIgnoresTheUnit(t, n, d, k);
    NearestCentIsMonotone(s, n, t, n, d);
    NearestCentIsMonotone(t, n, s, n, d);
  }

  lemma ScalingKeepsRaises(env: Env, gs: seq<Group>, k: int)
    ensures AnyRaises(env, Map(gs, ScaleGroup(k))) == AnyRaises(env, gs)
  {
    hide Raises;
    var hs := Map(gs, ScaleGroup(k));
    assert forall i :: 0 <= i < |gs| ==> hs[i].conditions == gs[i].conditions;
  }

  predicate SameScore(a: Computation, b: Computation) {
    a.score == b.score && a.band == b.band && a.isBlocked == b.isBlocked && a.isEligible == b.isEligible
  }

  /** Multiplying every delta by the same positive number changes the raw sum alone. */
  lemma ScalingKeepsTheScore(env: Env, pv: ProgramVersion, gs: seq<Group>, k: int)
    requires k > 0
    ensures var a, b := Evaluate(env, pv, gs), Evaluate(env, pv, Map(gs, ScaleGroup(k)));
            (a.None? <==> b.None?) && (a.Some? ==> SameScore(a.value, b.value) && b.value.raw == k * a.value.raw)
  {
    var sorted := Sort(gs, GroupKey());
    var hs := Map(gs, ScaleGroup(k));
    ScalingKeepsRaises(env, gs, k);
    SortMap(gs, ScaleGroup(k), GroupKey());
    hide BlockingPass, ScoringPass, Sort, AnyRaises, Scored, PayloadOf, MinPossible, MaxPossible, AllDeltas, ScaleGroup;
    ScalingKeepsBlocking(env, sorted, k);
    var a, b := Evaluate(env, pv, gs), Evaluate(env, pv, hs);
    if a.Some? {
      UnblockedExactlyWithoutBlockingItems(env, pv, gs, a.value);
      UnblockedExactlyWithoutBlockingItems(env, pv, hs, b.value);
      if !a.value.isBlocked {
        ScaledUnblocked(env, pv, gs, k, a.value, b.value);
      }
    }
  }

  lemma UnblockedExactlyWithoutBlockingItems(env: Env, pv: ProgramVersion, gs: seq<Group>, c: Computation)
    requires Evaluate(env, pv, gs) == Some(c)
    ensures c.isBlocked <==> BlockingPass(env, Sort(gs, GroupKey())) != []
    ensures c.isBlocked ==> c.score == 0 && c.raw == 0 && c.band == Baixo && !c.isEligible
  {
    hide BlockingPass, ScoringPass, Sort, AnyRaises, NormalizeScore, Messages, PayloadOf;
  }

  lemma ScaledUnblocked(env: Env, pv: ProgramVersion, gs: seq<Group>, k: int, a: Computation, b: Computation)
    requires k > 0 && Evaluate(env, pv, gs) == Some(a) && !a.isBlocked
    requires Evaluate(env, pv, Map(gs, ScaleGroup(k))) == Some(b) && !b.isBlocked
    ensures SameScore(a, b) && b.raw == k * a.raw
  {
    var sorted, hs := Sort(gs, GroupKey()), Map(gs, ScaleGroup(k));
    SortMap(gs, ScaleGroup(k), GroupKey());
    hide Evaluate, Sort, NormalizeScore, MinPossible, MaxPossible, AllDeltas, Total, ScaleGroup, Map;
    TotalScales(env, sorted, k);
    AllDeltasScale(env, sorted, k);
    UnblockedResult(env, pv, gs, a);
    UnblockedResult(env, pv, hs, b);
    SumsScale(AllDeltas(sorted), k);
    RawIsWithinRange(env, sorted);
    ScaledScore(Total(env, sorted), MinPossible(AllDeltas(sorted)), MaxPossible(AllDeltas(sorted)), k);
  }

  // ----------------------------------------- applying more never lowers the score

  function BandRank(b: Band): int {
    match b case Baixo => 0 case Medio => 1 case Alto => 2
  }

  /** From the first profile to the second, a group may only start applying if it cannot lower the score. */
  ghost predicate Improves(e: Env, f: Env, g: Group) {
    (Applies(f, g) && !Applies(e, g) ==> NoneNegative(Deltas(g)))
    && (Applies(e, g) && !Applies(f, g) ==> NonePositive(Deltas(g)))
  }

  lemma {:induction false} TotalImproves(e: Env, f: Env, gs: seq<Group>)
    requires forall i :: 0 <= i < |gs| ==> Improves(e, f, gs[i])
    ensures Total(e, gs) <= Total(f, gs)
  {
    if gs != [] {
      hide Applies, Sum, Deltas, NoneNegative, NonePositive, MinPossible, MaxPossible;
      assert forall i :: 0 <= i < |gs[1..]| ==> gs[1..][i] == gs[i + 1];
      TotalImproves(e, f, gs[1..]);
      SumBetweenPossible(Deltas(gs[0]));
      assert Improves(e, f, gs[0]);
    }
  }

  lemma ScoreImproves(raw: int, raw': int, low: int, high: int)
    requires low <= raw <= raw' <= high
    ensures NormalizeScore(raw, low, high) <= NormalizeScore(raw', low, high)
  {
    if low < high {
      ScoreIsNearestCent(raw, low, high);
      ScoreIsNearestCent(raw', low, high);
      var s, t := NormalizeScore(raw, low, high), NormalizeScore(raw', low, high);
      hide NormalizeScore;
      NearestCentIsMonotone(s, raw - low, t, raw' - low, high - low);
    }
  }

  /** Neither the score, nor the band, nor eligibility falls when the groups only improve and nothing blocks. */
  lemma MoreAppliesNeverLowers(e: Env, f: Env, pv: ProgramVersion, gs: seq<Group>, a: Computation, b: Computation)
    requires Evaluate(e, pv, gs) == Some(a) && Evaluate(f, pv, gs) == Some(b) && !a.isBlocked && !b.isBlocked
    requires forall i :: 0 <= i < |gs| ==> Improves(e, f, gs[i])
    ensures a.raw <= b.raw && a.score <= b.score && BandRank(a.band) <= BandRank(b.band)
    ensures a.isEligible ==> b.isEligible
  {
    hide Sort, AnyRaises, NormalizeScore, MinPossible, MaxPossible, AllDeltas, Total, EvaluateSorted, Improves;
    var sorted := Sort(gs, GroupKey());
    UnblockedResult(e, pv, gs, a);
    UnblockedResult(f, pv, gs, b);
    forall i | 0 <= i < |sorted|
      ensures Improves(e, f, sorted[i])
    {
      assert sorted[i] in multiset(gs);
    }
    TotalImproves(e, f, sorted);
    RawIsWithinRange(e, sorted);
    RawIsWithinRange(f, sorted);
    ScoreImproves(Total(e, sorted), Total(f, sorted), MinPossible(AllDeltas(sorted)), MaxPossible(AllDeltas(sorted)));
  }
}
