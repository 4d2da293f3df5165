/**
  Stable sorting by a key, as the score engine sorts groups, conditions and
  outcomes, and why the order of the input does not matter once keys are unique.
*/
module Sorting {

  /** A sort key: a number, then a text, then the text of an id. */
  datatype Key = Key(rank: int, text: string, id: string)

  predicate TextBefore(a: string, b: string) {
    if a == [] then b != []
    else b != [] && (a[0] < b[0] || (a[0] == b[0] && TextBefore(a[1..], b[1..])))
  }

  predicate Before(a: Key, b: Key) {
    a.rank < b.rank
    || (a.rank == b.rank && (TextBefore(a.text, b.text) || (a.text == b.text && TextBefore(a.id, b.id))))
  }

  lemma {:induction false} TextOrderIsTotal(a: string, b: string)
    ensures TextBefore(a, b) || a == b || TextBefore(b, a)
    ensures !(TextBefore(a, b) && TextBefore(b, a)) && !TextBefore(a, a)
  {
    if a != [] {
      TextOrderIsTotal(a[1..], a[1..]);
      if b != [] && a[0] == b[0] {
        TextOrderIsTotal(a[1..], b[1..]);
        assert a[1..] == b[1..] ==> [a[0]] + a[1..] == [b[0]] + b[1..];
      }
    }
  }

  lemma {:induction false} TextOrderIsTransitive(a: string, b: string, c: string)
    requires TextBefore(a, b) && TextBefore(b, c)
    ensures TextBefore(a, c)
  {
    if a != [] && a[0] == b[0] == c[0] {
      TextOrderIsTransitive(a[1..], b[1..], c[1..]);
    }
  }

  lemma KeyOrderIsTotal(a: Key, b: Key)
    ensures Before(a, b) || a == b || Before(b, a)
    ensures !(Before(a, b) && Before(b, a)) && !Before(a, a)
  {
    TextOrderIsTotal(a.text, b.text);
    TextOrderIsTotal(a.id, b.id);
  }

  lemma KeyOrderIsTransitive(a: Key, b: Key, c: Key)
    requires Before(a, b) && Before(b, c)
    ensures Before(a, c)
  {
    TextOrderIsTotal(a.text, b.text);
    TextOrderIsTotal(b.text, c.text);
    if TextBefore(a.text, b.text) && TextBefore(b.text, c.text) {
      TextOrderIsTransitive(a.text, b.text, c.text);
    }
    if TextBefore(a.id, b.id) && TextBefore(b.id, c.id) {
      TextOrderIsTransitive(a.id, b.id, c.id);
    }
  }

  /** Inserts x before the first element with a larger key, so that equal keys keep their order. */
  function Insert<T>(x: T, xs: seq<T>, key: T -> Key): (ys: seq<T>)
    ensures multiset(ys) == multiset{x} + multiset(xs)
  {
    if xs == [] then [x]
    else if Before(key(xs[0]), key(x)) then
      assert xs == [xs[0]] + xs[1..];
      [xs[0]] + Insert(x, xs[1..], key)
    else [x] + xs
  }

  function Sort<T>(xs: seq<T>, key: T -> Key): (ys: seq<T>)
    ensures multiset(ys) == multiset(xs)
  {
    if xs == [] then []
    else
      assert xs == [xs[0]] + xs[1..];
      Insert(xs[0], Sort(xs[1..], key), key)
  }

  /** Strictly increasing keys. */
  ghost predicate StrictlySorted<T>(xs: seq<T>, key: T -> Key) {
    forall i, j :: 0 <= i < j < |xs| ==> Before(key(xs[i]), key(xs[j]))
  }

  ghost predicate UniqueKeys<T>(xs: seq<T>, key: T -> Key) {
    forall i, j :: 0 <= i < j < |xs| ==> key(xs[i]) != key(xs[j])
  }

  lemma {:induction false} InsertKeepsSorted<T>(x: T, xs: seq<T>, key: T -> Key)
    requires StrictlySorted(xs, key)
    requires forall y :: y in xs ==> key(y) != key(x)
    ensures StrictlySorted(Insert(x, xs, key), key)
  {
    if xs != [] {
      KeyOrderIsTotal(key(xs[0]), key(x));
      if Before(key(xs[0]), key(x)) {
        InsertKeepsSorted(x, xs[1..], key);
        var tail := Insert(x, xs[1..], key);
        forall y | y in tail
          ensures Before(key(xs[0]), key(y))
        {
          assert y in multiset(tail);
        }
      } else {
        forall y | y in xs
          ensures Before(key(x), key(y))
        {
          if y != xs[0] {
            KeyOrderIsTransitive(key(x), key(xs[0]), key(y));
          }
        }
      }
    }
  }

  lemma {:induction false} SortSorts<T>(xs: seq<T>, key: T -> Key)
    requires UniqueKeys(xs, key)
    ensures StrictlySorted(Sort(xs, key), key)
  {
    if xs != [] {
      SortSorts(xs[1..], key);
      forall y | y in Sort(xs[1..], key)
        ensures key(y) != key(xs[0])
      {
        assert y in multiset(xs[1..]);
        var i :| 0 <= i < |xs[1..]| && xs[1..][i] == y;
        assert y == xs[i + 1];
      }
      InsertKeepsSorted(xs[0], Sort(xs[1..], key), key);
    }
  }

  lemma HeadsAgree<T>(xs: seq<T>, ys: seq<T>, key: T -> Key)
    requires StrictlySorted(xs, key) && StrictlySorted(ys, key)
    requires multiset(xs) == multiset(ys) && xs != [] && ys != []
    ensures xs[0] == ys[0]
  {
    assert xs[0] in multiset(ys) && ys[0] in multiset(xs);
    hide Before, StrictlySorted;
    HeadIsLeast(xs, ys[0], key);
    HeadIsLeast(ys, xs[0], key);
    KeyOrderIsTotal(key(xs[0]), key(ys[0]));
  }

  /** A strictly sorted list is determined by its elements. */
  lemma {:induction false} SortedIsUnique<T>(xs: seq<T>, ys: seq<T>, key: T -> Key)
    requires StrictlySorted(xs, key) && StrictlySorted(ys, key)
    requires multiset(xs) == multiset(ys)
    ensures xs == ys
  {
    hide Before, StrictlySorted;
    assert |xs| == |multiset(xs)| == |multiset(ys)| == |ys|;
    if xs != [] {
      HeadsAgree(xs, ys, key);
      TailMultiset(xs);
      TailMultiset(ys);
      TailIsSorted(xs, key);
      TailIsSorted(ys, key);
      SortedIsUnique(xs[1..], ys[1..], key);
      assert xs == [xs[0]] + xs[1..] && ys == [ys[0]] + ys[1..];
    }
  }

  lemma TailMultiset<T>(xs: seq<T>)
    requires xs != []
    ensures multiset(xs[1..]) == multiset(xs) - multiset{xs[0]}
  {
    assert xs == [xs[0]] + xs[1..];
  }

  lemma TailIsSorted<T>(xs: seq<T>, key: T -> Key)
    requires xs != [] && StrictlySorted(xs, key)
    ensures StrictlySorted(xs[1..], key)
  {
  }

  lemma HeadIsLeast<T>(xs: seq<T>, y: T, key: T -> Key)
    requires StrictlySorted(xs, key) && y in xs
    ensures y == xs[0] || Before(key(xs[0]), key(y))
  {
  }

  /** With unique keys, any two orders of the same elements sort to the same list. */
  lemma SortForgetsOrder<T>(xs: seq<T>, ys: seq<T>, key: T -> Key)
    requires multiset(xs) == multiset(ys) && UniqueKeys(xs, key) && UniqueKeys(ys, key)
    ensures Sort(xs, key) == Sort(ys, key)
  {
    SortSorts(xs, key);
    SortSorts(ys, key);
    SortedIsUnique(Sort(xs, key), Sort(ys, key), key);
  }

  // ------------------------------------------------- folds that forget order

  function Map<T, U>(xs: seq<T>, f: T -> U): (ys: seq<U>)
    ensures |ys| == |xs| && forall i :: 0 <= i < |xs| ==> ys[i] == f(xs[i])
  {
    if xs == [] then [] else [f(xs[0])] + Map(xs[1..], f)
  }

  function Filter<T>(xs: seq<T>, p: T -> bool): (ys: seq<T>)
    ensures forall i :: 0 <= i < |ys| ==> ys[i] in xs && p(ys[i])
  {
    if xs == [] then [] else (if p(xs[0]) then [xs[0]] else []) + Filter(xs[1..], p)
  }

  lemma {:induction false} FilterAppend<T>(xs: seq<T>, ys: seq<T>, p: T -> bool)
    ensures Filter(xs + ys, p) == Filter(xs, p) + Filter(ys, p)
  {
    if xs == [] {
      assert xs + ys == ys;
    } else {
      assert (xs + ys)[1..] == xs[1..] + ys;
      FilterAppend(xs[1..], ys, p);
    }
  }

  lemma {:induction false} MapAppend<T, U>(xs: seq<T>, ys: seq<T>, f: T -> U)
    ensures Map(xs + ys, f) == Map(xs, f) + Map(ys, f)
  {
    if xs == [] {
      assert xs + ys == ys;
    } else {
      assert (xs + ys)[1..] == xs[1..] + ys;
      MapAppend(xs[1..], ys, f);
    }
  }

  /** Taking one occurrence of x out of a list. */
  lemma Split<T>(xs: seq<T>, x: T) returns (left: seq<T>, right: seq<T>)
    requires x in xs
    ensures xs == left + [x] + right
    ensures multiset(left + right) == multiset(xs) - multiset{x}
  {
    var i :| 0 <= i < |xs| && xs[i] == x;
    left, right := xs[..i], xs[i + 1..];
    assert xs == left + [x] + right;
    assert multiset(xs) == multiset(left) + multiset{x} + multiset(right);
  }

  lemma MapMiddle<T, U>(left: seq<T>, x: T, right: seq<T>, f: T -> U)
    ensures multiset(Map(left + [x] + right, f)) == multiset{f(x)} + multiset(Map(left + right, f))
  {
    MapAppend(left + [x], right, f);
    MapAppend(left, [x], f);
    MapAppend(left, right, f);
    assert Map([x], f) == [f(x)];
  }

  lemma {:induction false} MapForgetsOrder<T, U>(xs: seq<T>, ys: seq<T>, f: T -> U)
    requires multiset(xs) == multiset(ys)
    ensures multiset(Map(xs, f)) == multiset(Map(ys, f))
  {
    if xs == [] {
      assert |multiset(ys)| == 0;
    } else {
      TailMultiset(xs);
      assert xs[0] in multiset(ys);
      var left, right := Split(ys, xs[0]);
      MapForgetsOrder(xs[1..], left + right, f);
      MapMiddle(left, xs[0], right, f);
    }
  }

  lemma FilterMiddle<T>(left: seq<T>, x: T, right: seq<T>, p: T -> bool)
    ensures multiset(Filter(left + [x] + right, p))
         == (if p(x) then multiset{x} else multiset{}) + multiset(Filter(left + right, p))
  {
    FilterAppend(left + [x], right, p);
    FilterAppend(left, [x], p);
    FilterAppend(left, right, p);
    assert Filter([x], p) == if p(x) then [x] else [];
  }

  lemma {:induction false} FilterForgetsOrder<T>(xs: seq<T>, ys: seq<T>, p: T -> bool)
    requires multiset(xs) == multiset(ys)
    ensures multiset(Filter(xs, p)) == multiset(Filter(ys, p))
  {
    if xs == [] {
      assert |multiset(ys)| == 0;
    } else {
      TailMultiset(xs);
      assert xs[0] in multiset(ys);
      var left, right := Split(ys, xs[0]);
      FilterForgetsOrder(xs[1..], left + right, p);
      FilterMiddle(left, xs[0], right, p);
    }
  }

  lemma {:induction false} FilterMap<T>(xs: seq<T>, f: T -> T, p: T -> bool)
    requires forall i :: 0 <= i < |xs| ==> p(f(xs[i])) == p(xs[i])
    ensures Filter(Map(xs, f), p) == Map(Filter(xs, p), f)
  {
    if xs != [] {
      FilterMap(xs[1..], f, p);
      assert Map(xs, f)[1..] == Map(xs[1..], f);
      MapAppend(if p(xs[0]) then [xs[0]] else [], Filter(xs[1..], p), f);
    }
  }

  function Sum(xs: seq<int>): int {
    if xs == [] then 0 else xs[0] + Sum(xs[1..])
  }

  lemma {:induction false} SumAppend(xs: seq<int>, ys: seq<int>)
    ensures Sum(xs + ys) == Sum(xs) + Sum(ys)
  {
    if xs == [] {
      assert xs + ys == ys;
    } else {
      assert (xs + ys)[1..] == xs[1..] + ys;
      SumAppend(xs[1..], ys);
    }
  }

  lemma {:induction false} SumForgetsOrder(xs: seq<int>, ys: seq<int>)
    requires multiset(xs) == multiset(ys)
    ensures Sum(xs) == Sum(ys)
  {
    if xs == [] {
      assert |multiset(ys)| == 0;
    } else {
      assert xs == [xs[0]] + xs[1..];
      assert xs[0] in multiset(ys);
      var left, right := Split(ys, xs[0]);
      SumForgetsOrder(xs[1..], left + right);
      SumAppend(left + [xs[0]], right);
      SumAppend(left, [xs[0]]);
      SumAppend(left, right);
    }
  }

  // ----------------------------------------- sorting and relabelling commute

  lemma {:induction false} InsertMap<T>(x: T, xs: seq<T>, f: T -> T, key: T -> Key)
    requires key(f(x)) == key(x) && forall i :: 0 <= i < |xs| ==> key(f(xs[i])) == key(xs[i])
    ensures Map(Insert(x, xs, key), f) == Insert(f(x), Map(xs, f), key)
  {
    hide Before;
    if xs != [] {
      assert Map(xs, f)[1..] == Map(xs[1..], f);
      if Before(key(xs[0]), key(x)) {
        InsertMap(x, xs[1..], f, key);
        MapAppend([xs[0]], Insert(x, xs[1..], key), f);
      } else {
        MapAppend([x], xs, f);
      }
    }
  }

  /** Relabelling that keeps the keys may be done before or after sorting. */
  lemma {:induction false} SortMap<T>(xs: seq<T>, f: T -> T, key: T -> Key)
    requires forall i :: 0 <= i < |xs| ==> key(f(xs[i])) == key(xs[i])
    ensures Map(Sort(xs, key), f) == Sort(Map(xs, f), key)
  {
    if xs != [] {
      SortMap(xs[1..], f, key);
      var tail := Sort(xs[1..], key);
      forall i | 0 <= i < |tail|
        ensures key(f(tail[i])) == key(tail[i])
      {
        assert tail[i] in multiset(xs[1..]);
      }
      InsertMap(xs[0], tail, f, key);
      assert Map(xs, f)[1..] == Map(xs[1..], f);
    }
  }

  lemma {:induction false} NoRepeats<T(!new)>(xs: seq<T>)
    ensures (forall i, j :: 0 <= i < j < |xs| ==> xs[i] != xs[j]) <==> (forall x :: multiset(xs)[x] <= 1)
  {
    if xs != [] {
      NoRepeats(xs[1..]);
      assert xs == [xs[0]] + xs[1..];
      if forall i, j :: 0 <= i < j < |xs| ==> xs[i] != xs[j] {
        forall x
          ensures multiset(xs)[x] <= 1
        {
          assert multiset(xs[1..])[x] <= 1;
          assert xs[0] !in xs[1..];
        }
      }
      if forall x :: multiset(xs)[x] <= 1 {
        forall x
          ensures multiset(xs[1..])[x] <= 1
        {
          assert multiset(xs)[x] <= 1;
        }
        assert multiset(xs)[xs[0]] <= 1;
        assert xs[0] !in multiset(xs[1..]);
      }
    }
  }

  lemma UniqueKeysForgetOrder<T>(xs: seq<T>, ys: seq<T>, key: T -> Key)
    requires multiset(xs) == multiset(ys) && UniqueKeys(xs, key)
    ensures UniqueKeys(ys, key)
  {
    hide Map;
    var ks, ls := Map(xs, key), Map(ys, key);
    MapForgetsOrder(xs, ys, key);
    assert forall i, j :: 0 <= i < j < |ks| ==> ks[i] != ks[j];
    NoRepeats(ks);
    NoRepeats(ls);
    forall i, j | 0 <= i < j < |ys|
      ensures key(ys[i]) != key(ys[j])
    {
      assert ls[i] != ls[j];
    }
  }
}
