// Small vocabulary shared by the other modules.
module Common {

  datatype Option<+T> = None | Some(value: T) {
    function GetOr(default: T): T {
      if Some? then value else default
    }
  }

  datatype Result<+T, +E> = Ok(value: T) | Err(error: E)

  /** The sum of f over the elements of xs. */
  function SumBy<T>(f: T -> real, xs: seq<T>): real {
    if xs == [] then 0.0 else f(xs[0]) + SumBy(f, xs[1..])
  }

  /** How many elements of xs satisfy p, each counted with the weight f gives it. */
  function CountBy<T>(f: T -> nat, xs: seq<T>): nat {
    if xs == [] then 0 else f(xs[0]) + CountBy(f, xs[1..])
  }

  /** Elements of b, in the order of b. */
  predicate Subsequence<T(==)>(a: seq<T>, b: seq<T>)
    decreases |b|
  {
    || a == []
    || (b != [] && Subsequence(a, b[..|b| - 1]))
    || (b != [] && a[|a| - 1] == b[|b| - 1] && Subsequence(a[..|a| - 1], b[..|b| - 1]))
  }

  lemma {:induction false} SumByAppend<T>(f: T -> real, xs: seq<T>, ys: seq<T>)
    ensures SumBy(f, xs + ys) == SumBy(f, xs) + SumBy(f, ys)
  {
    if xs == [] {
      assert xs + ys == ys;
    } else {
      assert (xs + ys)[1..] == xs[1..] + ys;
      SumByAppend(f, xs[1..], ys);
    }
  }

  lemma {:induction false} CountByUpdate<T>(f: T -> nat, xs: seq<T>, i: nat, x: T)
    requires i < |xs|
    ensures CountBy(f, xs[i := x]) == CountBy(f, xs) - f(xs[i]) + f(x)
  {
    if i == 0 {
      assert xs[i := x][1..] == xs[1..];
    } else {
      assert xs[i := x][1..] == xs[1..][i - 1 := x];
      CountByUpdate(f, xs[1..], i - 1, x);
    }
  }
}
