/** The two-pass score engine (apps/assessments/engine.py): its meaning, and its loops proved against it. */
module ScoreEngine {
  import opened Common
  import opened Sorting
  import opened Rules

  datatype Check = Check(conditionId: string, fieldKey: string, operator: Operator, expected: Json, actual: Json, matched: bool)

  datatype Item = Item(groupId: string, groupCode: string, outcomeId: string, applied: bool, delta: int,
                       isBlocking: bool, message: string, checks: seq<Check>)

  datatype Band = Baixo | Medio | Alto

  datatype ProgramVersion = ProgramVersion(id: string, version: string, effectiveFrom: int, effectiveTo: Option<int>)

  /** The canonical payload whose digest identifies the rules; the digest is taken to be injective. */
  datatype GroupPayload = GroupPayload(id: string, code: string, priority: int, matchOperator: MatchOperator,
                                       conditions: seq<Condition>, outcomes: seq<Outcome>)
  datatype Payload = Payload(programVersion: ProgramVersion, groups: seq<GroupPayload>)

  datatype Computation = Computation(payload: Payload, score: int, raw: int, band: Band, isBlocked: bool, isEligible: bool,
                                     positives: seq<string>, gaps: seq<string>, breakdown: seq<Item>)

  // ---------------------------------------------------------------- one group

  predicate Matched(env: Env, c: Condition) {
    var t := Truth(env, c);
    t.Some? && t.value
  }

  function CheckOf(env: Env): Condition -> Check {
    (c: Condition) => Check(c.id, c.fieldKey, c.operator, c.value, FieldOf(env, c.fieldKey), Matched(env, c))
  }

  predicate Raises(env: Env, cs: seq<Condition>) {
    exists i :: 0 <= i < |cs| && Truth(env, cs[i]).None?
  }

  function Checks(env: Env, g: Group): seq<Check> {
    Map(Ordered(g), CheckOf(env))
  }

  /** A group without conditions always applies. */
  predicate Applies(env: Env, g: Group) {
    var cs := Ordered(g);
    cs == []
    || (if g.matchOperator.MatchAny? then exists i :: 0 <= i < |cs| && Matched(env, cs[i])
        else forall i :: 0 <= i < |cs| ==> Matched(env, cs[i]))
  }

  function Blocks(): Outcome -> bool { (o: Outcome) => o.isBlocking }

  function Scores(): Outcome -> bool { (o: Outcome) => !o.isBlocking }

  function BlockingItem(groupId: string, groupCode: string, checks: seq<Check>): Outcome -> Item {
    (o: Outcome) => Item(groupId, groupCode, o.id, true, o.delta, true, o.message, checks)
  }

  function ScoringItem(groupId: string, groupCode: string, checks: seq<Check>, applied: bool): Outcome -> Item {
    (o: Outcome) => Item(groupId, groupCode, o.id, applied, if applied then o.delta else 0, false, o.message, checks)
  }

  function BlockingItems(env: Env, g: Group): seq<Item> {
    if Applies(env, g) then Map(Filter(g.outcomes, Blocks()), BlockingItem(g.id, g.code, Checks(env, g))) else []
  }

  function ScoringItems(env: Env, g: Group): seq<Item> {
    Map(Filter(g.outcomes, Scores()), ScoringItem(g.id, g.code, Checks(env, g), Applies(env, g)))
  }

  function DeltaOf(): Outcome -> int { (o: Outcome) => o.delta }

  function Deltas(g: Group): seq<int> {
    Map(Filter(g.outcomes, Scores()), DeltaOf())
  }

  // ------------------------------------------------------------- all the groups

  function BlockingPass(env: Env, gs: seq<Group>): seq<Item> {
    if gs == [] then [] else BlockingItems(env, gs[0]) + BlockingPass(env, gs[1..])
  }

  function ScoringPass(env: Env, gs: seq<Group>): seq<Item> {
    if gs == [] then [] else ScoringItems(env, gs[0]) + ScoringPass(env, gs[1..])
  }

  function AllDeltas(gs: seq<Group>): seq<int> {
    if gs == [] then [] else Deltas(gs[0]) + AllDeltas(gs[1..])
  }

  function ItemDelta(): Item -> int { (i: Item) => i.delta }
  function ItemMessage(): Item -> string { (i: Item) => i.message }
  function Raising(): Item -> bool { (i: Item) => i.delta > 0 }
  function Lowering(): Item -> bool { (i: Item) => i.delta < 0 }

  function RawScore(items: seq<Item>): int { Sum(Map(items, ItemDelta())) }

  function Messages(items: seq<Item>, p: Item -> bool): seq<string> { Map(Filter(items, p), ItemMessage()) }

  function Negative(): int -> int { (d: int) => if d < 0 then d else 0 }
  function Positive(): int -> int { (d: int) => if d > 0 then d else 0 }

  function MinPossible(deltas: seq<int>): int { Sum(Map(deltas, Negative())) }
  function MaxPossible(deltas: seq<int>): int { Sum(Map(deltas, Positive())) }

  /** Rounding to cents, halves away from zero. */
  function Quantize(x: real): int {
    if x >= 0.0 then (x * 100.0 + 0.5).Floor else -((-x * 100.0 + 0.5).Floor)
  }

  function Clamp(x: real): real {
    if x < 0.0 then 0.0 else if x > 100.0 then 100.0 else x
  }

  /** The share of the way from the worst to the best possible sum, in cents of 100. */
  function NormalizeScore(raw: int, low: int, high: int): int {
    if high == low then (if raw > 0 then 10000 else 0)
    else Quantize(Clamp((raw - low) as real / (high - low) as real * 100.0))
  }

  function BandOf(score: int): Band {
    if score < 4000 then Baixo else if score < 7000 then Medio else Alto
  }

  function PayloadOfGroup(): Group -> GroupPayload {
    (g: Group) => GroupPayload(g.id, g.code, g.priority, g.matchOperator, Ordered(g), Sort(g.outcomes, OutcomeKey()))
  }

  function PayloadOf(pv: ProgramVersion, sorted: seq<Group>): Payload {
    Payload(pv, Map(sorted, PayloadOfGroup()))
  }

  predicate AnyRaises(env: Env, gs: seq<Group>) {
    exists i :: 0 <= i < |gs| && Raises(env, gs[i].conditions)
  }

  function Blocked(payload: Payload, items: seq<Item>): Computation {
    Computation(payload, 0, 0, Baixo, true, false, [], Map(items, ItemMessage()), items)
  }

  function Scored(payload: Payload, items: seq<Item>, deltas: seq<int>): Computation {
    var raw := RawScore(items);
    var score := NormalizeScore(raw, MinPossible(deltas), MaxPossible(deltas));
    Computation(payload, score, raw, BandOf(score), false, score >= 6000,
                Messages(items, Raising()), Messages(items, Lowering()), items)
  }

  function EvaluateSorted(env: Env, pv: ProgramVersion, sorted: seq<Group>): Computation {
    var blocking := BlockingPass(env, sorted);
    if blocking != [] then Blocked(PayloadOf(pv, sorted), blocking)
    else Scored(PayloadOf(pv, sorted), ScoringPass(env, sorted), AllDeltas(sorted))
  }

  /** None where the engine raises: some condition of some group cannot be evaluated. */
  function Evaluate(env: Env, pv: ProgramVersion, gs: seq<Group>): Option<Computation> {
    if AnyRaises(env, gs) then None else Some(EvaluateSorted(env, pv, Sort(gs, GroupKey())))
  }

  // ---------------------------------------------------------- the engine's loops

  class Engine {
    constructor () {}

    /** ok is false where a condition raises. */
    method EvaluateGroupConditions(env: Env, g: Group) returns (ok: bool, checks: seq<Check>, applies: bool)
      ensures ok <==> !Raises(env, g.conditions)
      ensures ok ==> checks == Checks(env, g) && applies == Applies(env, g)
    {
      hide Truth, FieldOf, Sort;
      var ordered := Ordered(g);
      SameRaises(env, ordered, g.conditions);
      checks := [];
      var truths: seq<bool> := [];
      for i := 0 to |ordered|
        invariant |checks| == |truths| == i
        invariant forall j :: 0 <= j < i ==> Truth(env, ordered[j]).Some? && truths[j] == Matched(env, ordered[j])
        invariant forall j :: 0 <= j < i ==> checks[j] == CheckOf(env)(ordered[j])
      {
        var c := ordered[i];
        var truth := Truth(env, c);
        if truth.None? {
          return false, [], false;
        }
        checks := checks + [Check(c.id, c.fieldKey, c.operator, c.value, FieldOf(env, c.fieldKey), truth.value)];
        truths := truths + [truth.value];
      }
      ok := true;
      if truths == [] {
        applies := true;
      } else if g.matchOperator.MatchAny? {
        applies := true in truths;
      } else {
        applies := false !in truths;
      }
      TruthsDecide(env, g, truths);
    }

    method BlockingItemsOf(g: Group, checks: seq<Check>) returns (items: seq<Item>)
      ensures items == Map(Filter(g.outcomes, Blocks()), BlockingItem(g.id, g.code, checks))
    {
      items := [];
      for k := 0 to |g.outcomes|
        invariant items == Map(Filter(g.outcomes[..k], Blocks()), BlockingItem(g.id, g.code, checks))
      {
        FilterOneMore(g.outcomes, k, Blocks(), BlockingItem(g.id, g.code, checks));
        var o := g.outcomes[k];
        if o.isBlocking {
          items := items + [Item(g.id, g.code, o.id, true, o.delta, true, o.message, checks)];
        }
      }
      assert g.outcomes[..|g.outcomes|] == g.outcomes;
    }

    method ScoringItemsOf(g: Group, checks: seq<Check>, applies: bool) returns (items: seq<Item>)
      ensures items == Map(Filter(g.outcomes, Scores()), ScoringItem(g.id, g.code, checks, applies))
    {
      items := [];
      for k := 0 to |g.outcomes|
        invariant items == Map(Filter(g.outcomes[..k], Scores()), ScoringItem(g.id, g.code, checks, applies))
      {
        FilterOneMore(g.outcomes, k, Scores(), ScoringItem(g.id, g.code, checks, applies));
        var o := g.outcomes[k];
        if !o.isBlocking {
          var delta := if applies then o.delta else 0;
          items := items + [Item(g.id, g.code, o.id, applies, delta, false, o.message, checks)];
        }
      }
      assert g.outcomes[..|g.outcomes|] == g.outcomes;
    }

    method EvaluateBlockingPass(env: Env, gs: seq<Group>) returns (ok: bool, items: seq<Item>)
      ensures ok <==> !AnyRaises(env, gs)
      ensures ok ==> items == BlockingPass(env, gs)
    {
      hide Checks, Applies, Raises, Map, Filter, Blocks;
      items := [];
      for i := 0 to |gs|
        invariant forall j :: 0 <= j < i ==> !Raises(env, gs[j].conditions)
        invariant items == BlockingPass(env, gs[..i])
      {
        var evaluated, checks, applies := EvaluateGroupConditions(env, gs[i]);
        if !evaluated {
          return false, [];
        }
        BlockingPassStep(env, gs, i);
        if applies {
          var added := BlockingItemsOf(gs[i], checks);
          items := items + added;
        }
      }
      assert gs[..|gs|] == gs;
      ok := true;
    }

    method EvaluateScoringPass(env: Env, gs: seq<Group>) returns (ok: bool, items: seq<Item>)
      ensures ok <==> !AnyRaises(env, gs)
      ensures ok ==> items == ScoringPass(env, gs)
    {
      hide Checks, Applies, Raises, Map, Filter, Scores;
      items := [];
      for i := 0 to |gs|
        invariant forall j :: 0 <= j < i ==> !Raises(env, gs[j].conditions)
        invariant items == ScoringPass(env, gs[..i])
      {
        var evaluated, checks, applies := EvaluateGroupConditions(env, gs[i]);
        if !evaluated {
          return false, [];
        }
        ScoringPassStep(env, gs, i);
        var added := ScoringItemsOf(gs[i], checks, applies);
        items := items + added;
      }
      assert gs[..|gs|] == gs;
      ok := true;
    }

    method EvaluateProfile(env: Env, pv: ProgramVersion, gs: seq<Group>) returns (result: Option<Computation>)
      ensures result == Evaluate(env, pv, gs)
    {
      hide AnyRaises, BlockingPass, ScoringPass, Sort, Scored, PayloadOf;
      var sorted := Sort(gs, GroupKey());
      SameAnyRaises(env, sorted, gs);
      var payload := PayloadOf(pv, sorted);
      var ok, blocking := EvaluateBlockingPass(env, sorted);
      if !ok {
        return None;
      }
      if blocking != [] {
        return Some(Blocked(payload, blocking));
      }
      var scored, items := EvaluateScoringPass(env, sorted);
      if !scored {
        return None;
      }
      return Some(Scored(payload, items, AllDeltas(sorted)));
    }
  }

  lemma TruthsDecide(env: Env, g: Group, truths: seq<bool>)
    requires |truths| == |Ordered(g)|
    requires forall j :: 0 <= j < |truths| ==> truths[j] == Matched(env, Ordered(g)[j])
    ensures Applies(env, g) == (truths == [] || if g.matchOperator.MatchAny? then true in truths else false !in truths)
  {
    hide Truth, FieldOf, Sort;
    var cs := Ordered(g);
    assert true in truths <==> exists i :: 0 <= i < |cs| && Matched(env, cs[i]);
    assert false !in truths <==> forall i :: 0 <= i < |cs| ==> Matched(env, cs[i]);
  }

  lemma {:induction false} BlockingPassAppend(env: Env, gs: seq<Group>, hs: seq<Group>)
    ensures BlockingPass(env, gs + hs) == BlockingPass(env, gs) + BlockingPass(env, hs)
  {
    hide BlockingItems;
    if gs == [] {
      assert gs + hs == hs;
    } else {
      assert (gs + hs)[1..] == gs[1..] + hs;
      BlockingPassAppend(env, gs[1..], hs);
    }
  }

  lemma BlockingPassStep(env: Env, gs: seq<Group>, i: nat)
    requires i < |gs|
    ensures BlockingPass(env, gs[..i + 1]) == BlockingPass(env, gs[..i]) + BlockingItems(env, gs[i])
  {
    hide BlockingItems;
    assert gs[..i + 1] == gs[..i] + [gs[i]];
    BlockingPassAppend(env, gs[..i], [gs[i]]);
    assert BlockingPass(env, [gs[i]]) == BlockingItems(env, gs[i]) + BlockingPass(env, []);
  }

  lemma {:induction false} ScoringPassAppend(env: Env, gs: seq<Group>, hs: seq<Group>)
    ensures ScoringPass(env, gs + hs) == ScoringPass(env, gs) + ScoringPass(env, hs)
  {
    hide ScoringItems;
    if gs == [] {
      assert gs + hs == hs;
    } else {
      assert (gs + hs)[1..] == gs[1..] + hs;
      ScoringPassAppend(env, gs[1..], hs);
    }
  }

  lemma ScoringPassStep(env: Env, gs: seq<Group>, i: nat)
    requires i < |gs|
    ensures ScoringPass(env, gs[..i + 1]) == ScoringPass(env, gs[..i]) + ScoringItems(env, gs[i])
  {
    hide ScoringItems;
    assert gs[..i + 1] == gs[..i] + [gs[i]];
    ScoringPassAppend(env, gs[..i], [gs[i]]);
    assert ScoringPass(env, [gs[i]]) == ScoringItems(env, gs[i]) + ScoringPass(env, []);
  }

  lemma FilterOneMore<U>(xs: seq<Outcome>, k: nat, p: Outcome -> bool, f: Outcome -> U)
    requires k < |xs|
    ensures Map(Filter(xs[..k + 1], p), f) == Map(Filter(xs[..k], p), f) + (if p(xs[k]) then [f(xs[k])] else [])
  {
    assert xs[..k + 1] == xs[..k] + [xs[k]];
    FilterAppend(xs[..k], [xs[k]], p);
    assert Filter([xs[k]], p) == if p(xs[k]) then [xs[k]] else [];
    MapAppend(Filter(xs[..k], p), Filter([xs[k]], p), f);
  }

  lemma SameRaises(env: Env, cs: seq<Condition>, ds: seq<Condition>)
    requires multiset(cs) == multiset(ds)
    ensures Raises(env, cs) <==> Raises(env, ds)
  {
    RaisesTransfers(env, cs, ds);
    RaisesTransfers(env, ds, cs);
  }

  lemma RaisesTransfers(env: Env, cs: seq<Condition>, ds: seq<Condition>)
    requires multiset(cs) == multiset(ds)
    ensures Raises(env, cs) ==> Raises(env, ds)
  {
    if Raises(env, cs) {
      var i :| 0 <= i < |cs| && Truth(env, cs[i]).None?;
      assert cs[i] in multiset(ds);
      var j :| 0 <= j < |ds| && ds[j] == cs[i];
    }
  }

  lemma SameAnyRaises(env: Env, gs: seq<Group>, hs: seq<Group>)
    requires multiset(gs) == multiset(hs)
    ensures AnyRaises(env, gs) <==> AnyRaises(env, hs)
  {
    AnyRaisesTransfers(env, gs, hs);
    AnyRaisesTransfers(env, hs, gs);
  }

  lemma AnyRaisesTransfers(env: Env, gs: seq<Group>, hs: seq<Group>)
    requires multiset(gs) == multiset(hs)
    ensures AnyRaises(env, gs) ==> AnyRaises(env, hs)
  {
    if AnyRaises(env, gs) {
      var i :| 0 <= i < |gs| && Raises(env, gs[i].conditions);
      assert gs[i] in multiset(hs);
      var j :| 0 <= j < |hs| && hs[j] == gs[i];
    }
  }
}
