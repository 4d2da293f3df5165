/** Values shared by every module: optional values and the exponent used by the back-off rules. */
module Common {

  datatype Option<+T> = None | Some(value: T)

  /** The surrogate keys of the database are opaque; integers stand for them. */
  type UserId = int

  function Max(a: int, b: int): int {
    if a < b then b else a
  }

  /** 2 to the n, the growth factor of every back-off in the system. */
  function Pow2(n: nat): (r: nat)
    ensures r > 0
  {
    if n == 0 then 1 else 2 * Pow2(n - 1)
  }

  /** How many members of xs satisfy p. */
  function Count<T>(xs: seq<T>, p: T -> bool): (n: nat)
    ensures n <= |xs|
  {
    if xs == [] then 0 else (if p(xs[0]) then 1 else 0) + Count(xs[1..], p)
  }

  lemma {:induction false} CountAppend<T>(xs: seq<T>, ys: seq<T>, p: T -> bool)
    ensures Count(xs + ys, p) == Count(xs, p) + Count(ys, p)
  {
    if xs == [] {
      assert xs + ys == ys;
    } else {
      assert (xs + ys)[1..] == xs[1..] + ys;
      CountAppend(xs[1..], ys, p);
    }
  }
}
