/** The bounded list of recent ids kept by the web client (frontend/src/lib/recent-items.ts). */
module RecentItems {

  const CAPACITY := 25

  function Kept(x: string, item: string): seq<string> {
    if x == item then [] else [x]
  }

  function Without(xs: seq<string>, item: string): seq<string> {
    if xs == [] then [] else Kept(xs[0], item) + Without(xs[1..], item)
  }

  /** Filtering removes every occurrence of the item and nothing else. */
  lemma {:induction false} WithoutMembers(xs: seq<string>, item: string)
    ensures forall x :: x in Without(xs, item) <==> x in xs && x != item
  {
    if xs != [] {
      WithoutMembers(xs[1..], item);
    }
  }

  function Truncate(xs: seq<string>, n: nat): seq<string> {
    if |xs| <= n then xs else xs[..n]
  }

  function AddUnique(stored: seq<string>, item: string): seq<string> {
    Truncate([item] + Without(stored, item), CAPACITY)
  }

  /** The stored list after a history of additions, oldest first. */
  function Store(initial: seq<string>, history: seq<string>): seq<string> {
    if history == [] then initial
    else AddUnique(Store(initial, history[..|history| - 1]), history[|history| - 1])
  }

  /** The whole history read backwards, each item once, then what was stored before it. */
  function Recent(initial: seq<string>, history: seq<string>): seq<string> {
    if history == [] then initial
    else [history[|history| - 1]] + Without(Recent(initial, history[..|history| - 1]), history[|history| - 1])
  }

  ghost predicate Distinct(xs: seq<string>) {
    forall i, j :: 0 <= i < j < |xs| ==> xs[i] != xs[j]
  }

  /** Truncating before a removal loses nothing that a later truncation to one item less would keep. */
  lemma {:induction false} TruncateThenRemove(xs: seq<string>, item: string, n: nat, m: nat)
    requires m < n
    requires Distinct(xs)
    ensures Truncate(Without(Truncate(xs, n), item), m) == Truncate(Without(xs, item), m)
    decreases xs
  {
    if |xs| > n {
      var x, rest := xs[0], xs[1..];
      DistinctTail(xs);
      assert xs == [x] + rest;
      hide Without, Truncate, Distinct;
      TruncateCons(x, rest, n);
      if x == item {
        RemoveHead(rest, item, n - 1, m);
      } else if m > 0 {
        TruncateThenRemove(rest, item, n - 1, m - 1);
        KeepHead(x, rest, item, n - 1, m);
      } else {
        TruncateToNothing(Without(xs, item));
        TruncateToNothing(Without(Truncate(xs, n), item));
      }
    }
  }

  lemma KeepHead(x: string, rest: seq<string>, item: string, n: nat, m: nat)
    requires x != item && m > 0
    requires Truncate(Without(Truncate(rest, n), item), m - 1) == Truncate(Without(rest, item), m - 1)
    ensures Truncate(Without([x] + Truncate(rest, n), item), m) == Truncate(Without([x] + rest, item), m)
  {
    hide Without, Truncate;
    WithoutCons(x, rest, item);
    WithoutCons(x, Truncate(rest, n), item);
    TruncateCons(x, Without(rest, item), m);
    TruncateCons(x, Without(Truncate(rest, n), item), m);
  }

  lemma RemoveHead(rest: seq<string>, item: string, n: nat, m: nat)
    requires item !in rest && m <= n
    ensures Truncate(Without([item] + Truncate(rest, n), item), m) == Truncate(Without([item] + rest, item), m)
  {
    TruncateKeepsAbsent(rest, item, n, m);
    hide Without, Truncate;
    WithoutCons(item, rest, item);
    WithoutCons(item, Truncate(rest, n), item);
    assert [] + Without(rest, item) == Without(rest, item);
    assert [] + Without(Truncate(rest, n), item) == Without(Truncate(rest, n), item);
  }

  lemma DistinctTail(xs: seq<string>)
    requires xs != [] && Distinct(xs)
    ensures Distinct(xs[1..]) && xs[0] !in xs[1..]
  {
  }

  lemma TruncateToNothing(xs: seq<string>)
    ensures Truncate(xs, 0) == []
  {
  }

  lemma WithoutCons(x: string, xs: seq<string>, item: string)
    ensures Without([x] + xs, item) == Kept(x, item) + Without(xs, item)
  {
    hide Kept;
    assert ([x] + xs)[1..] == xs;
  }

  lemma TruncateKeepsAbsent(xs: seq<string>, item: string, n: nat, m: nat)
    requires item !in xs && m <= n
    ensures Truncate(Without(Truncate(xs, n), item), m) == Truncate(Without(xs, item), m)
  {
    WithoutAbsent(xs, item);
    WithoutAbsent(Truncate(xs, n), item);
  }

  lemma TruncateCons(x: string, xs: seq<string>, m: nat)
    requires m > 0
    ensures Truncate([x] + xs, m) == [x] + Truncate(xs, m - 1)
  {
  }

  lemma {:induction false} WithoutAbsent(xs: seq<string>, item: string)
    requires item !in xs
    ensures Without(xs, item) == xs
  {
    if xs != [] {
      WithoutAbsent(xs[1..], item);
    }
  }

  lemma {:induction false} WithoutKeepsDistinct(xs: seq<string>, item: string)
    requires Distinct(xs)
    ensures Distinct(Without(xs, item))
  {
    if xs != [] {
      WithoutKeepsDistinct(xs[1..], item);
      var tail := Without(xs[1..], item);
      assert xs[0] !in xs[1..];
      WithoutMembers(xs[1..], item);
      assert Without(xs, item) == Kept(xs[0], item) + tail;
    }
  }

  lemma {:induction false} RecentIsDistinct(initial: seq<string>, history: seq<string>)
    requires Distinct(initial)
    ensures Distinct(Recent(initial, history))
  {
    if history != [] {
      var prior := history[..|history| - 1];
      RecentIsDistinct(initial, prior);
      WithoutKeepsDistinct(Recent(initial, prior), history[|history| - 1]);
      WithoutMembers(Recent(initial, prior), history[|history| - 1]);
      assert history[|history| - 1] !in Without(Recent(initial, prior), history[|history| - 1]);
    }
  }

  /**
    Truncating at every addition gives the same list as keeping the whole history
    without repetitions and truncating once, when it is read.
  */
  lemma {:induction false} TruncatingEachTimeLosesNothing(initial: seq<string>, history: seq<string>)
    requires Distinct(initial) && |initial| <= CAPACITY
    ensures Store(initial, history) == Truncate(Recent(initial, history), CAPACITY)
  {
    if history != [] {
      var prior, item := history[..|history| - 1], history[|history| - 1];
      TruncatingEachTimeLosesNothing(initial, prior);
      var all := Recent(initial, prior);
      RecentIsDistinct(initial, prior);
      TruncateThenRemove(all, item, CAPACITY, CAPACITY - 1);
      TruncateCons(item, Without(Truncate(all, CAPACITY), item), CAPACITY);
      TruncateCons(item, Without(all, item), CAPACITY);
    }
  }

  lemma {:induction false} WithoutAppend(xs: seq<string>, ys: seq<string>, item: string)
    ensures Without(xs + ys, item) == Without(xs, item) + Without(ys, item)
  {
    hide Kept;
    if xs == [] {
      assert xs + ys == ys;
    } else {
      assert (xs + ys)[1..] == xs[1..] + ys;
      WithoutAppend(xs[1..], ys, item);
    }
  }

  function WithoutAll(xs: seq<string>, items: seq<string>): seq<string> {
    if items == [] then xs else Without(WithoutAll(xs, items[..|items| - 1]), items[|items| - 1])
  }

  /** A longer history puts its latest items in front and drops them from the rest. */
  lemma {:induction false} RecentSplits(initial: seq<string>, first: seq<string>, later: seq<string>)
    ensures Recent(initial, first + later) == Recent([], later) + WithoutAll(Recent(initial, first), later)
  {
    assert Recent([], []) == [] && WithoutAll(Recent(initial, first), []) == Recent(initial, first);
    hide Recent, Without, WithoutAll;
    if later == [] {
      assert first + later == first;
    } else {
      var prior, item := later[..|later| - 1], later[|later| - 1];
      assert later == prior + [item];
      RecentSplits(initial, first, prior);
      OneMoreLaterItem(initial, first, prior, item, WithoutAll(Recent(initial, first), prior));
      WithoutOneMore(Recent(initial, first), prior, item);
    }
  }

  lemma WithoutOneMore(xs: seq<string>, items: seq<string>, item: string)
    ensures WithoutAll(xs, items + [item]) == Without(WithoutAll(xs, items), item)
  {
    assert (items + [item])[..|items|] == items;
  }

  lemma OneMoreLaterItem(initial: seq<string>, first: seq<string>, later: seq<string>, item: string, tail: seq<string>)
    requires Recent(initial, first + later) == Recent([], later) + tail
    ensures Recent(initial, first + (later + [item])) == Recent([], later + [item]) + Without(tail, item)
  {
    hide Recent, Without;
    assert first + (later + [item]) == first + later + [item];
    RecentOfLonger(initial, first + later, item);
    RecentOfLonger([], later, item);
    WithoutAppend(Recent([], later), tail, item);
  }

  lemma RecentOfLonger(initial: seq<string>, history: seq<string>, item: string)
    ensures Recent(initial, history + [item]) == [item] + Without(Recent(initial, history), item)
  {
    assert (history + [item])[..|history|] == history;
  }

  lemma {:induction false} HeadSurvives(xs: seq<string>, items: seq<string>)
    requires xs != [] && xs[0] !in items
    ensures WithoutAll(xs, items) != [] && WithoutAll(xs, items)[0] == xs[0]
  {
    if items != [] {
      HeadSurvives(xs, items[..|items| - 1]);
    }
  }

  /** An item stands right after the different items added since its last addition. */
  lemma RankIsTheNumberOfLaterItems(initial: seq<string>, first: seq<string>, item: string, later: seq<string>)
    requires item !in later
    ensures var all, rank := Recent(initial, first + [item] + later), |Recent([], later)|;
            rank < |all| && all[rank] == item
  {
    var upTo := first + [item];
    RecentOfLonger(initial, first, item);
    RecentSplits(initial, upTo, later);
    HeadSurvives(Recent(initial, upTo), later);
  }

  /** The client's storage: one list under a key, overwritten at every addition. */
  class RecentList {
    var stored: seq<string>

    constructor ()
      ensures stored == []
    {
      stored := [];
    }

    method WriteList(values: seq<string>)
      modifies this
      ensures stored == Truncate(values, CAPACITY)
    {
      stored := if |values| <= CAPACITY then values else values[..CAPACITY];
    }

    method Add(item: string)
      modifies this
      ensures stored == AddUnique(old(stored), item)
    {
      WriteList([item] + Without(stored, item));
    }
  }
}
