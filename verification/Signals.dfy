/**
  The signals shown with a score (apps/assessments/services.py, apps/roadmaps/services.py): both views rebuild
  positive factors and critical gaps from the stored items, and derive the band from the stored score.
*/
module Signals {
  import opened Common
  import opened Sorting
  import opened Rules
  import opened ScoreEngine
  import ScoreTheorems

  function Raises(): Item -> bool { (i: Item) => i.applied && i.delta > 0 }
  function Lowers(): Item -> bool { (i: Item) => i.applied && (i.isBlocking || i.delta < 0) }

  /** The assessment view: one loop over the stored items, in the order they were stored. */
  method BreakdownResponse(items: seq<Item>) returns (entries: seq<Item>, positives: seq<string>, gaps: seq<string>)
    ensures entries == items
    ensures positives == Messages(items, Raises()) && gaps == Messages(items, Lowers())
  {
    entries, positives, gaps := [], [], [];
    NoSignals();
    hide Messages, Raises, Lowers;
    for k := 0 to |items|
      invariant entries == items[..k]
      invariant positives == Messages(items[..k], Raises()) && gaps == Messages(items[..k], Lowers())
    {
      OneMoreItem(items, k);
      var item := items[k];
      entries := entries + [item];
      if item.applied {
        if item.isBlocking || item.delta < 0 {
          gaps := gaps + [item.message];
        }
        if item.delta > 0 {
          positives := positives + [item.message];
        }
      }
    }
    assert items[..|items|] == items;
  }

  /** The roadmap's payload: the same loop, its appends in a helper that leaves early. */
  method AppendSignals(item: Item, positives: seq<string>, gaps: seq<string>)
    returns (positives': seq<string>, gaps': seq<string>)
    ensures positives' == positives + Messages([item], Raises()) && gaps' == gaps + Messages([item], Lowers())
  {
    positives', gaps' := positives, gaps;
    OneItem(item);
    hide Messages, Raises, Lowers;
    if !item.applied {
      return;
    }
    if item.isBlocking || item.delta < 0 {
      gaps' := gaps' + [item.message];
    }
    if item.delta > 0 {
      positives' := positives' + [item.message];
    }
  }

  method ProviderPayload(items: seq<Item>) returns (positives: seq<string>, gaps: seq<string>)
    ensures positives == Messages(items, Raises()) && gaps == Messages(items, Lowers())
  {
    positives, gaps := [], [];
    NoSignals();
    hide Messages, Raises, Lowers;
    for k := 0 to |items|
      invariant positives == Messages(items[..k], Raises()) && gaps == Messages(items[..k], Lowers())
    {
      OneMoreItem(items, k);
      OneItem(items[k]);
      positives, gaps := AppendSignals(items[k], positives, gaps);
    }
    assert items[..|items|] == items;
  }

  lemma NoSignals()
    ensures Messages([], Raises()) == [] && Messages([], Lowers()) == []
  {
  }

  lemma OneItem(item: Item)
    ensures Messages([item], Raises()) == if item.applied && item.delta > 0 then [item.message] else []
    ensures Messages([item], Lowers()) == if item.applied && (item.isBlocking || item.delta < 0) then [item.message] else []
  {
    assert Filter([item], Raises()) == if Raises()(item) then [item] else [];
    assert Filter([item], Lowers()) == if Lowers()(item) then [item] else [];
  }

  lemma MessagesAppend(xs: seq<Item>, ys: seq<Item>, p: Item -> bool)
    ensures Messages(xs + ys, p) == Messages(xs, p) + Messages(ys, p)
  {
    FilterAppend(xs, ys, p);
    MapAppend(Filter(xs, p), Filter(ys, p), ItemMessage());
  }

  lemma OneMoreItem(items: seq<Item>, k: nat)
    requires k < |items|
    ensures var item := items[k];
            Messages(items[..k + 1], Raises())
              == Messages(items[..k], Raises()) + (if item.applied && item.delta > 0 then [item.message] else [])
            && Messages(items[..k + 1], Lowers())
              == Messages(items[..k], Lowers())
                 + (if item.applied && (item.isBlocking || item.delta < 0) then [item.message] else [])
  {
    assert items[..k + 1] == items[..k] + [items[k]];
    MessagesAppend(items[..k], [items[k]], Raises());
    MessagesAppend(items[..k], [items[k]], Lowers());
    OneItem(items[k]);
    hide Messages, Raises, Lowers;
  }

  // ------------------------------------------------------- against the engine's own lists

  lemma {:induction false} SameFilter(items: seq<Item>, p: Item -> bool, q: Item -> bool)
    requires forall i :: 0 <= i < |items| ==> p(items[i]) == q(items[i])
    ensures Filter(items, p) == Filter(items, q)
  {
    if items != [] {
      SameFilter(items[1..], p, q);
    }
  }

  /** How every item of the scoring pass looks: not blocking, and without effect unless its group applies. */
  lemma {:induction false} ScoringItemsShape(env: Env, gs: seq<Group>, k: nat)
    requires k < |ScoringPass(env, gs)|
    ensures var item := ScoringPass(env, gs)[k]; !item.isBlocking && (!item.applied ==> item.delta == 0)
  {
    hide Applies, Checks, Filter;
    var here := ScoringItems(env, gs[0]);
    if k >= |here| {
      ScoringItemsShape(env, gs[1..], k - |here|);
    }
  }

  lemma {:induction false} BlockingItemsShape(env: Env, gs: seq<Group>, k: nat)
    requires k < |BlockingPass(env, gs)|
    ensures var item := BlockingPass(env, gs)[k]; item.isBlocking && item.applied
  {
    hide Applies, Checks, Filter;
    var here := BlockingItems(env, gs[0]);
    if k >= |here| {
      BlockingItemsShape(env, gs[1..], k - |here|);
    }
  }

  lemma {:induction false} FilterAll(items: seq<Item>, p: Item -> bool)
    ensures Filter(items, p) == items <==> forall i :: 0 <= i < |items| ==> p(items[i])
    ensures Filter(items, p) == [] <==> forall i :: 0 <= i < |items| ==> !p(items[i])
    ensures |Filter(items, p)| <= |items|
  {
    if items != [] {
      FilterAll(items[1..], p);
      assert forall i :: 1 <= i < |items| ==> items[i] == items[1..][i - 1];
      assert items == [items[0]] + items[1..];
    }
  }

  /** What a view shows for stored items agrees with a computation. */
  ghost predicate SignalsAgree(stored: seq<Item>, c: Computation) {
    multiset(Messages(stored, Raises())) == multiset(c.positives)
    && multiset(Messages(stored, Lowers())) == multiset(c.gaps)
  }

  ghost predicate SomeRaising(items: seq<Item>) {
    exists i :: 0 <= i < |items| && items[i].delta > 0
  }

  lemma UnblockedSignals(env: Env, p: Payload, gs: seq<Group>, ds: seq<int>)
    ensures SignalsAgree(ScoringPass(env, gs), Scored(p, ScoringPass(env, gs), ds))
  {
    var items := ScoringPass(env, gs);
    forall i | 0 <= i < |items|
      ensures Raises()(items[i]) == Raising()(items[i]) && Lowers()(items[i]) == Lowering()(items[i])
    {
      ScoringItemsShape(env, gs, i);
    }
    hide ScoringPass, NormalizeScore, RawScore;
    SameFilter(items, Raises(), Raising());
    SameFilter(items, Lowers(), Lowering());
  }

  lemma BlockedSignals(env: Env, p: Payload, gs: seq<Group>)
    ensures var items := BlockingPass(env, gs);
            SignalsAgree(items, Blocked(p, items)) <==> !SomeRaising(items)
  {
    var items := BlockingPass(env, gs);
    forall i | 0 <= i < |items|
      ensures items[i].isBlocking && items[i].applied
    {
      BlockingItemsShape(env, gs, i);
    }
    hide BlockingPass;
    ShownWhenBlocking(items);
    BlockedLists(p, items);
    hide Messages, Blocked, Raises, Lowers, SomeRaising;
    NothingShown(Messages(items, Raises()));
  }

  /** What the views show for blocking items. */
  lemma ShownWhenBlocking(items: seq<Item>)
    requires forall i :: 0 <= i < |items| ==> items[i].isBlocking && items[i].applied
    ensures Messages(items, Lowers()) == Map(items, ItemMessage())
    ensures Messages(items, Raises()) == [] <==> !SomeRaising(items)
  {
    FilterAll(items, Lowers());
    FilterAll(items, Raises());
    hide Filter, Map;
    assert |Messages(items, Raises())| == |Filter(items, Raises())|;
  }

  lemma BlockedLists(p: Payload, items: seq<Item>)
    ensures Blocked(p, items).positives == [] && Blocked(p, items).gaps == Map(items, ItemMessage())
  {
  }

  lemma NothingShown(shown: seq<string>)
    ensures multiset(shown) == multiset([]) <==> shown == []
  {
    assert |multiset(shown)| == |shown|;
  }

  /** An outcome that blocks and yet has a positive delta. */
  predicate PraisesWhileBlocking(g: Group) {
    exists k :: 0 <= k < |g.outcomes| && g.outcomes[k].isBlocking && g.outcomes[k].delta > 0
  }

  ghost predicate PositiveBlocker(env: Env, gs: seq<Group>) {
    exists i :: 0 <= i < |gs| && Applies(env, gs[i]) && PraisesWhileBlocking(gs[i])
  }

  lemma {:induction false} FilterFinds(os: seq<Outcome>, p: Outcome -> bool, k: nat)
    requires k < |os| && p(os[k])
    ensures os[k] in Filter(os, p)
  {
    if k > 0 {
      FilterFinds(os[1..], p, k - 1);
    }
  }

  lemma RaisingItemsOf(env: Env, g: Group)
    ensures SomeRaising(BlockingItems(env, g)) <==> Applies(env, g) && PraisesWhileBlocking(g)
  {
    hide Applies, Checks, Filter, Map;
    var items := BlockingItems(env, g);
    var os := Filter(g.outcomes, Blocks());
    if Applies(env, g) {
      if PraisesWhileBlocking(g) {
        var k :| 0 <= k < |g.outcomes| && g.outcomes[k].isBlocking && g.outcomes[k].delta > 0;
        FilterFinds(g.outcomes, Blocks(), k);
        var i :| 0 <= i < |os| && os[i] == g.outcomes[k];
        assert items[i].delta == os[i].delta;
      } else {
        forall i | 0 <= i < |items|
          ensures items[i].delta <= 0
        {
          assert items[i].delta == os[i].delta && os[i] in g.outcomes && Blocks()(os[i]);
        }
      }
    }
  }

  lemma SomeRaisingAppend(xs: seq<Item>, ys: seq<Item>)
    ensures SomeRaising(xs + ys) <==> SomeRaising(xs) || SomeRaising(ys)
  {
    assert forall i :: 0 <= i < |xs| ==> (xs + ys)[i] == xs[i];
    assert forall i :: 0 <= i < |ys| ==> (xs + ys)[|xs| + i] == ys[i];
  }

  lemma PositiveBlockerCons(env: Env, gs: seq<Group>)
    requires gs != []
    ensures PositiveBlocker(env, gs)
       <==> (Applies(env, gs[0]) && PraisesWhileBlocking(gs[0])) || PositiveBlocker(env, gs[1..])
  {
    hide Applies, PraisesWhileBlocking;
    assert forall i :: 0 <= i < |gs[1..]| ==> gs[1..][i] == gs[i + 1];
  }

  lemma {:induction false} RaisingItems(env: Env, gs: seq<Group>)
    ensures SomeRaising(BlockingPass(env, gs)) <==> PositiveBlocker(env, gs)
  {
    if gs != [] {
      RaisingItems(env, gs[1..]);
      hide BlockingItems, Applies, PraisesWhileBlocking, SomeRaising, PositiveBlocker;
      RaisingItemsOf(env, gs[0]);
      PositiveBlockerCons(env, gs);
      SomeRaisingAppend(BlockingItems(env, gs[0]), BlockingPass(env, gs[1..]));
    }
  }

  lemma PositiveBlockerForgetsOrder(env: Env, gs: seq<Group>, hs: seq<Group>)
    requires multiset(gs) == multiset(hs) && PositiveBlocker(env, gs)
    ensures PositiveBlocker(env, hs)
  {
    hide Applies, PraisesWhileBlocking;
    var i :| 0 <= i < |gs| && Applies(env, gs[i]) && PraisesWhileBlocking(gs[i]);
    assert gs[i] in multiset(hs);
    var j :| 0 <= j < |hs| && hs[j] == gs[i];
  }

  /**
    The views' lists, rebuilt from the stored items in any order, are the engine's lists as multisets if and only
    if no group that applies has a blocking outcome with a positive delta.
  */
  lemma RebuiltSignalsAgree(env: Env, pv: ProgramVersion, gs: seq<Group>, stored: seq<Item>)
    ensures var result := Evaluate(env, pv, gs);
            result.Some? && multiset(stored) == multiset(result.value.breakdown) ==>
              (SignalsAgree(stored, result.value) <==> !PositiveBlocker(env, gs))
  {
    hide Sort, PayloadOf, AnyRaises, BlockingPass, ScoringPass, Messages, NormalizeScore, RawScore, PositiveBlocker;
    var result := Evaluate(env, pv, gs);
    if result.Some? {
      StoredSignalsAgree(env, pv, Sort(gs, GroupKey()), stored);
      SameBlockers(env, gs, Sort(gs, GroupKey()));
    }
  }

  lemma SameBlockers(env: Env, gs: seq<Group>, hs: seq<Group>)
    requires multiset(gs) == multiset(hs)
    ensures PositiveBlocker(env, gs) <==> PositiveBlocker(env, hs)
  {
    if PositiveBlocker(env, gs) {
      PositiveBlockerForgetsOrder(env, gs, hs);
    }
    if PositiveBlocker(env, hs) {
      PositiveBlockerForgetsOrder(env, hs, gs);
    }
  }

  lemma StoredSignalsAgree(env: Env, pv: ProgramVersion, sorted: seq<Group>, stored: seq<Item>)
    ensures var c := EvaluateSorted(env, pv, sorted);
            multiset(stored) == multiset(c.breakdown) ==> (SignalsAgree(stored, c) <==> !PositiveBlocker(env, sorted))
  {
    hide PayloadOf, BlockingPass, ScoringPass, Messages, NormalizeScore, RawScore, PositiveBlocker;
    var c := EvaluateSorted(env, pv, sorted);
    if multiset(stored) == multiset(c.breakdown) {
      ScoreTheorems.MessagesForgetOrder(stored, c.breakdown, Raises());
      ScoreTheorems.MessagesForgetOrder(stored, c.breakdown, Lowers());
      RaisingItems(env, sorted);
      if c.isBlocked {
        BlockedSignals(env, PayloadOf(pv, sorted), sorted);
      } else {
        UnblockedSignals(env, PayloadOf(pv, sorted), sorted, AllDeltas(sorted));
      }
    }
  }

  // ------------------------------------------------------- the three band functions

  function AssessmentBand(score: int): Band {
    if score < 4000 then Baixo else if score < 7000 then Medio else Alto
  }

  function RoadmapBand(score: int): Band {
    if score >= 7000 then Alto else if score >= 4000 then Medio else Baixo
  }

  /** The views put every evaluation into the engine's band, blocked ones included. */
  lemma BandsAgree(env: Env, pv: ProgramVersion, gs: seq<Group>)
    ensures var result := Evaluate(env, pv, gs);
            result.Some? ==> AssessmentBand(result.value.score) == RoadmapBand(result.value.score) == result.value.band
    ensures forall score: int :: BandOf(score) == AssessmentBand(score) == RoadmapBand(score)
  {
    hide Sort, PayloadOf, AnyRaises, BlockingPass, ScoringPass, Messages, NormalizeScore, RawScore;
  }
}
