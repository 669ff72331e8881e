/** Sums over sequences of records. */
module Sums {

  function SumOf<T>(xs: seq<T>, f: T -> real): real {
    if xs == [] then 0.0 else SumOf(xs[..|xs| - 1], f) + f(xs[|xs| - 1])
  }

  lemma {:induction false} SumSnoc<T>(xs: seq<T>, x: T, f: T -> real)
    ensures SumOf(xs + [x], f) == SumOf(xs, f) + f(x)
  {
    assert (xs + [x])[..|xs|] == xs;
  }

  lemma {:induction false} SumAppend<T>(xs: seq<T>, ys: seq<T>, f: T -> real)
    ensures SumOf(xs + ys, f) == SumOf(xs, f) + SumOf(ys, f)
    decreases |ys|
  {
    if ys == [] {
      assert xs + ys == xs;
    } else {
      var init, y := ys[..|ys| - 1], ys[|ys| - 1];
      SumAppend(xs, init, f);
      assert xs + ys == (xs + init) + [y];
      SumSnoc(xs + init, y, f);
    }
  }

  lemma {:induction false} SumSingle<T>(x: T, f: T -> real)
    ensures SumOf([x], f) == f(x)
  {
    assert [x][..0] == [];
  }

  /** The sum splits around any one element. */
  lemma {:induction false} SumAround<T>(xs: seq<T>, i: nat, f: T -> real)
    requires i < |xs|
    ensures SumOf(xs, f) == SumOf(xs[..i] + xs[i + 1..], f) + f(xs[i])
  {
    var before, after := xs[..i], xs[i + 1..];
    assert xs == before + ([xs[i]] + after);
    SumAppend(before, [xs[i]] + after, f);
    SumAppend([xs[i]], after, f);
    SumSingle(xs[i], f);
    SumAppend(before, after, f);
  }

  /** Replacing an element changes the sum by the difference. */
  lemma {:induction false} SumUpdate<T>(xs: seq<T>, i: nat, x: T, f: T -> real)
    requires i < |xs|
    ensures SumOf(xs[i := x], f) == SumOf(xs, f) - f(xs[i]) + f(x)
  {
    SumAround(xs, i, f);
    SumAround(xs[i := x], i, f);
    assert xs[i := x][..i] + xs[i := x][i + 1..] == xs[..i] + xs[i + 1..];
  }

  lemma {:induction false} SumNonNegative<T>(xs: seq<T>, f: T -> real)
    requires forall x <- xs :: f(x) >= 0.0
    ensures SumOf(xs, f) >= 0.0
    decreases |xs|
  {
    if xs != [] {
      SumNonNegative(xs[..|xs| - 1], f);
    }
  }
}
