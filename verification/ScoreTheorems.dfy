/** What the score engine guarantees: indifference to order, a payload that fixes the result, and its arithmetic. */
module ScoreTheorems {
  import opened Common
  import opened Sorting
  import opened Rules
  import opened ScoreEngine

  // --------------------------------------------- the order of groups and conditions

  /** h is g with its conditions stored in another order. */
  ghost predicate SameUpToConditionOrder(g: Group, h: Group) {
    h.(conditions := g.conditions) == g && multiset(h.conditions) == multiset(g.conditions)
  }

  function Canon(): Group -> Group {
    (g: Group) => g.(conditions := Ordered(g))
  }

  lemma SameCanon(g: Group, h: Group)
    requires SameUpToConditionOrder(g, h) && UniqueKeys(g.conditions, ConditionKey())
    ensures Canon()(g) == Canon()(h)
  {
    UniqueKeysForgetOrder(g.conditions, h.conditions, ConditionKey());
    SortForgetsOrder(g.conditions, h.conditions, ConditionKey());
  }

  /** Evaluation sees a group only through its canonical form. */
  lemma {:induction false} PassesUseCanon(env: Env, gs: seq<Group>, hs: seq<Group>)
    requires Map(gs, Canon()) == Map(hs, Canon())
    ensures BlockingPass(env, gs) == BlockingPass(env, hs)
    ensures ScoringPass(env, gs) == ScoringPass(env, hs)
    ensures AllDeltas(gs) == AllDeltas(hs)
    ensures Map(gs, PayloadOfGroup()) == Map(hs, PayloadOfGroup())
  {
    assert |gs| == |Map(gs, Canon())| == |hs|;
    if gs != [] {
      assert Map(gs, Canon())[0] == Canon()(gs[0]) && Map(hs, Canon())[0] == Canon()(hs[0]);
      GroupUsesCanon(env, gs[0], hs[0]);
      assert Map(gs[1..], Canon()) == Map(gs, Canon())[1..];
      assert Map(hs[1..], Canon()) == Map(hs, Canon())[1..];
      hide BlockingItems, ScoringItems, Deltas, Canon, PayloadOfGroup;
      PassesUseCanon(env, gs[1..], hs[1..]);
    }
  }

  lemma GroupUsesCanon(env: Env, g: Group, h: Group)
    requires Canon()(g) == Canon()(h)
    ensures BlockingItems(env, g) == BlockingItems(env, h)
    ensures ScoringItems(env, g) == ScoringItems(env, h)
    ensures Deltas(g) == Deltas(h) && PayloadOfGroup()(g) == PayloadOfGroup()(h)
  {
    hide Sort, Filter, Map, Matched;
    assert Ordered(g) == Canon()(g).conditions == Ordered(h);
    assert g.outcomes == h.outcomes && g.matchOperator == h.matchOperator && g.id == h.id && g.code == h.code;
  }

  lemma RaisesInAnyOrder(env: Env, gs: seq<Group>, mid: seq<Group>, hs: seq<Group>)
    requires multiset(gs) == multiset(mid) && |mid| == |hs|
    requires forall i :: 0 <= i < |mid| ==> SameUpToConditionOrder(mid[i], hs[i])
    ensures AnyRaises(env, gs) == AnyRaises(env, hs)
  {
    hide Raises;
    SameAnyRaises(env, gs, mid);
    forall i | 0 <= i < |mid|
      ensures Raises(env, mid[i].conditions) == Raises(env, hs[i].conditions)
    {
      SameRaises(env, mid[i].conditions, hs[i].conditions);
    }
  }

  /**
    Reordering the rule groups (gs to mid), and then the conditions inside each group (mid to hs),
    changes nothing of the result: not the score, not the breakdown's order, not the payload.
    Distinct ids make the keys unique.
  */
  lemma ReorderingChangesNothing(env: Env, pv: ProgramVersion, gs: seq<Group>, mid: seq<Group>, hs: seq<Group>)
    requires multiset(gs) == multiset(mid) && UniqueKeys(gs, GroupKey())
    requires |mid| == |hs| && forall i :: 0 <= i < |mid| ==> SameUpToConditionOrder(mid[i], hs[i])
    requires forall i :: 0 <= i < |mid| ==> UniqueKeys(mid[i].conditions, ConditionKey())
    ensures Evaluate(env, pv, gs) == Evaluate(env, pv, hs)
  {
    hide AnyRaises, Scored, Blocked, Sort, UniqueKeys, PayloadOfGroup;
    RaisesInAnyOrder(env, gs, mid, hs);
    UniqueKeysForgetOrder(gs, mid, GroupKey());
    SortForgetsOrder(gs, mid, GroupKey());
    forall i | 0 <= i < |mid|
      ensures Canon()(mid[i]) == Canon()(hs[i])
    {
      SameCanon(mid[i], hs[i]);
    }
    assert Map(mid, Canon()) == Map(hs, Canon());
    SortMap(mid, Canon(), GroupKey());
    SortMap(hs, Canon(), GroupKey());
    PassesUseCanon(env, Sort(gs, GroupKey()), Sort(hs, GroupKey()));
  }

  // --------------------------------------------- the payload fixes the result

  /** The parts of a group that its payload entry records. */
  lemma PayloadOfGroupFixes(g: Group, h: Group)
    requires PayloadOfGroup()(g) == PayloadOfGroup()(h)
    ensures g.id == h.id && g.code == h.code && g.matchOperator == h.matchOperator
    ensures Ordered(g) == Ordered(h) && multiset(g.outcomes) == multiset(h.outcomes)
  {
    hide Ordered;
    var p := PayloadOfGroup()(g);
    assert multiset(p.outcomes) == multiset(g.outcomes);
    assert multiset(p.outcomes) == multiset(h.outcomes);
  }

  lemma ChecksFollow(env: Env, g: Group, h: Group)
    requires Ordered(g) == Ordered(h) && g.matchOperator == h.matchOperator
    ensures Checks(env, g) == Checks(env, h) && Applies(env, g) == Applies(env, h)
    ensures Raises(env, g.conditions) == Raises(env, h.conditions)
  {
    hide Truth, Sort;
    SameRaises(env, Ordered(g), g.conditions);
    SameRaises(env, Ordered(h), h.conditions);
  }

  /** Each group's segment of the breakdown keeps its items; only their order may differ. */
  lemma SegmentsKeepTheirItems(env: Env, g: Group, h: Group)
    requires PayloadOfGroup()(g) == PayloadOfGroup()(h)
    ensures multiset(BlockingItems(env, g)) == multiset(BlockingItems(env, h))
    ensures multiset(ScoringItems(env, g)) == multiset(ScoringItems(env, h))
    ensures multiset(Deltas(g)) == multiset(Deltas(h))
    ensures Raises(env, g.conditions) == Raises(env, h.conditions)
  {
    PayloadOfGroupFixes(g, h);
    ChecksFollow(env, g, h);
    hide Checks, Applies, Ordered, Raises, PayloadOfGroup, Map, Filter;
    FilterForgetsOrder(g.outcomes, h.outcomes, Blocks());
    FilterForgetsOrder(g.outcomes, h.outcomes, Scores());
    MapForgetsOrder(Filter(g.outcomes, Blocks()), Filter(h.outcomes, Blocks()), BlockingItem(g.id, g.code, Checks(env, g)));
    MapForgetsOrder(Filter(g.outcomes, Scores()), Filter(h.outcomes, Scores()),
                    ScoringItem(g.id, g.code, Checks(env, g), Applies(env, g)));
    MapForgetsOrder(Filter(g.outcomes, Scores()), Filter(h.outcomes, Scores()), DeltaOf());
  }

  lemma {:induction false} PassesFollowThePayload(env: Env, gs: seq<Group>, hs: seq<Group>)
    requires Map(gs, PayloadOfGroup()) == Map(hs, PayloadOfGroup())
    ensures multiset(BlockingPass(env, gs)) == multiset(BlockingPass(env, hs))
    ensures multiset(ScoringPass(env, gs)) == multiset(ScoringPass(env, hs))
    ensures multiset(AllDeltas(gs)) == multiset(AllDeltas(hs))
    ensures AnyRaises(env, gs) == AnyRaises(env, hs)
  {
    hide BlockingItems, ScoringItems, Deltas, PayloadOfGroup, Raises;
    var ps := Map(gs, PayloadOfGroup());
    assert |gs| == |ps| == |hs|;
    forall i | 0 <= i < |gs|
      ensures Raises(env, gs[i].conditions) == Raises(env, hs[i].conditions)
    {
      assert PayloadOfGroup()(gs[i]) == ps[i] == PayloadOfGroup()(hs[i]);
      SegmentsKeepTheirItems(env, gs[i], hs[i]);
    }
    if gs != [] {
      assert PayloadOfGroup()(gs[0]) == ps[0] == PayloadOfGroup()(hs[0]);
      SegmentsKeepTheirItems(env, gs[0], hs[0]);
      assert Map(gs[1..], PayloadOfGroup()) == ps[1..] == Map(hs[1..], PayloadOfGroup());
      PassesFollowThePayload(env, gs[1..], hs[1..]);
    }
  }

  /** Equal up to the order of the breakdown and of the two message lists. */
  ghost predicate SameResult(a: Computation, b: Computation) {
    a.payload == b.payload && a.score == b.score && a.raw == b.raw && a.band == b.band
    && a.isBlocked == b.isBlocked && a.isEligible == b.isEligible
    && multiset(a.breakdown) == multiset(b.breakdown)
    && multiset(a.positives) == multiset(b.positives) && multiset(a.gaps) == multiset(b.gaps)
  }

  /** Rule sets with equal payloads score every profile alike, although outcomes are evaluated in stored order. */
  lemma PayloadFixesTheScore(env: Env, pv: ProgramVersion, gs: seq<Group>, hs: seq<Group>)
    requires PayloadOf(pv, Sort(gs, GroupKey())) == PayloadOf(pv, Sort(hs, GroupKey()))
    ensures Evaluate(env, pv, gs).None? <==> Evaluate(env, pv, hs).None?
    ensures Evaluate(env, pv, gs).Some? ==> SameResult(Evaluate(env, pv, gs).value, Evaluate(env, pv, hs).value)
  {
    var gs', hs' := Sort(gs, GroupKey()), Sort(hs, GroupKey());
    hide AnyRaises, Sort, PayloadOfGroup, BlockingPass, ScoringPass, AllDeltas, Scored, Blocked;
    SameAnyRaises(env, gs, gs');
    SameAnyRaises(env, hs, hs');
    PassesFollowThePayload(env, gs', hs');
    var a, b := BlockingPass(env, gs'), BlockingPass(env, hs');
    assert |multiset(a)| == |a| && |multiset(b)| == |b|;
    if a != [] {
      BlockedForgetsOrder(PayloadOf(pv, gs'), a, b);
    } else {
      ScoredForgetsOrder(PayloadOf(pv, gs'), ScoringPass(env, gs'), ScoringPass(env, hs'), AllDeltas(gs'), AllDeltas(hs'));
    }
  }

  lemma BlockedForgetsOrder(p: Payload, xs: seq<Item>, ys: seq<Item>)
    requires multiset(xs) == multiset(ys)
    ensures SameResult(Blocked(p, xs), Blocked(p, ys))
  {
    MapForgetsOrder(xs, ys, ItemMessage());
  }

  lemma MessagesForgetOrder(xs: seq<Item>, ys: seq<Item>, p: Item -> bool)
    requires multiset(xs) == multiset(ys)
    ensures multiset(Messages(xs, p)) == multiset(Messages(ys, p))
  {
    FilterForgetsOrder(xs, ys, p);
    MapForgetsOrder(Filter(xs, p), Filter(ys, p), ItemMessage());
  }

  lemma TotalsForgetOrder<T>(xs: seq<T>, ys: seq<T>, f: T -> int)
    requires multiset(xs) == multiset(ys)
    ensures Sum(Map(xs, f)) == Sum(Map(ys, f))
  {
    MapForgetsOrder(xs, ys, f);
    SumForgetsOrder(Map(xs, f), Map(ys, f));
  }

  lemma ScoredForgetsOrder(p: Payload, xs: seq<Item>, ys: seq<Item>, ds: seq<int>, es: seq<int>)
    requires multiset(xs) == multiset(ys) && multiset(ds) == multiset(es)
    ensures SameResult(Scored(p, xs, ds), Scored(p, ys, es))
  {
    hide Messages, NormalizeScore, Map, Sum;
    TotalsForgetOrder(xs, ys, ItemDelta());
    TotalsForgetOrder(ds, es, Negative());
    TotalsForgetOrder(ds, es, Positive());
    MessagesForgetOrder(xs, ys, Raising());
    MessagesForgetOrder(xs, ys, Lowering());
  }

  /** h is g with its outcomes stored in another order. */
  ghost predicate SameUpToOutcomeOrder(g: Group, h: Group) {
    h.(outcomes := g.outcomes) == g && multiset(h.outcomes) == multiset(g.outcomes)
  }

  ghost predicate SameSegment(env: Env, g: Group, h: Group) {
    multiset(BlockingItems(env, g)) == multiset(BlockingItems(env, h))
    && multiset(ScoringItems(env, g)) == multiset(ScoringItems(env, h))
  }

  /** The i-th group contributes the same items on both sides. */
  ghost predicate SameSegments(env: Env, gs: seq<Group>, hs: seq<Group>) {
    |gs| == |hs| && forall i :: 0 <= i < |gs| ==> SameSegment(env, gs[i], hs[i])
  }

  /**
    Reordering the outcomes inside groups leaves the payload alone, and each group's segment of the
    breakdown stays in its place and keeps its items.
  */
  lemma OutcomeOrderMovesOnlyWithinAGroup(env: Env, pv: ProgramVersion, gs: seq<Group>, hs: seq<Group>)
    requires |gs| == |hs| && forall i :: 0 <= i < |gs| ==> SameUpToOutcomeOrder(gs[i], hs[i])
    requires forall i :: 0 <= i < |gs| ==> UniqueKeys(gs[i].outcomes, OutcomeKey())
    ensures var gs', hs' := Sort(gs, GroupKey()), Sort(hs, GroupKey());
            PayloadOf(pv, gs') == PayloadOf(pv, hs') && SameSegments(env, gs', hs')
  {
    var gs', hs' := Sort(gs, GroupKey()), Sort(hs, GroupKey());
    SortedOutcomesAgree(gs, hs);
    hide Sort, UniqueKeys, SameSegments, Map;
    SortedOutcomesFixThePayload(gs', hs');
    PayloadFixesSegments(env, gs', hs');
  }

  lemma PayloadFixesSegments(env: Env, gs: seq<Group>, hs: seq<Group>)
    requires |gs| == |hs| && Map(gs, PayloadOfGroup()) == Map(hs, PayloadOfGroup())
    ensures SameSegments(env, gs, hs)
  {
    hide SameSegment, PayloadOfGroup;
    var ps := Map(gs, PayloadOfGroup());
    forall i | 0 <= i < |gs|
      ensures SameSegment(env, gs[i], hs[i])
    {
      assert PayloadOfGroup()(gs[i]) == ps[i] == PayloadOfGroup()(hs[i]);
      PayloadFixesSegment(env, gs[i], hs[i]);
    }
  }

  lemma PayloadFixesSegment(env: Env, g: Group, h: Group)
    requires PayloadOfGroup()(g) == PayloadOfGroup()(h)
    ensures SameSegment(env, g, h)
  {
    hide PayloadOfGroup, BlockingItems, ScoringItems;
    SegmentsKeepTheirItems(env, g, h);
  }

  lemma SortedOutcomesAgree(gs: seq<Group>, hs: seq<Group>)
    requires |gs| == |hs| && forall i :: 0 <= i < |gs| ==> SameUpToOutcomeOrder(gs[i], hs[i])
    requires forall i :: 0 <= i < |gs| ==> UniqueKeys(gs[i].outcomes, OutcomeKey())
    ensures Map(Sort(gs, GroupKey()), SortOutcomes()) == Map(Sort(hs, GroupKey()), SortOutcomes())
  {
    hide Sort, UniqueKeys;
    var f := SortOutcomes();
    forall i | 0 <= i < |gs|
      ensures f(gs[i]) == f(hs[i])
    {
      UniqueKeysForgetOrder(gs[i].outcomes, hs[i].outcomes, OutcomeKey());
      SortForgetsOrder(gs[i].outcomes, hs[i].outcomes, OutcomeKey());
    }
    assert Map(gs, f) == Map(hs, f);
    SortMap(gs, f, GroupKey());
    SortMap(hs, f, GroupKey());
  }

  function SortOutcomes(): Group -> Group {
    (g: Group) => g.(outcomes := Sort(g.outcomes, OutcomeKey()))
  }

  lemma SortedOutcomesFixThePayload(gs: seq<Group>, hs: seq<Group>)
    requires Map(gs, SortOutcomes()) == Map(hs, SortOutcomes())
    ensures |gs| == |hs| && Map(gs, PayloadOfGroup()) == Map(hs, PayloadOfGroup())
  {
    hide Sort;
    var fs := Map(gs, SortOutcomes());
    assert |gs| == |fs| == |hs|;
    forall i | 0 <= i < |gs|
      ensures PayloadOfGroup()(gs[i]) == PayloadOfGroup()(hs[i])
    {
      assert SortOutcomes()(gs[i]) == fs[i] == SortOutcomes()(hs[i]);
    }
  }
}
