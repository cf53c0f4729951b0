/** Sums over sequences. */
module Sums {
  import opened Entities

  function Sum<T>(xs: seq<T>, f: T -> nat): nat {
    if xs == [] then 0 else f(xs[0]) + Sum(xs[1..], f)
  }

  lemma {:induction false} SumUpdate<T>(xs: seq<T>, i: nat, x: T, f: T -> nat)
    requires i < |xs|
    ensures Sum(xs[i := x], f) + f(xs[i]) == Sum(xs, f) + f(x)
  {
    var ys := xs[i := x];
    if i > 0 {
      assert ys[1..] == xs[1..][i - 1 := x];
      SumUpdate(xs[1..], i - 1, x, f);
    } else {
      assert ys[1..] == xs[1..];
    }
  }

  lemma {:induction false} SumRemove<T>(xs: seq<T>, i: nat, f: T -> nat)
    requires i < |xs|
    ensures Sum(RemoveAt(xs, i), f) + f(xs[i]) == Sum(xs, f)
  {
    var ys := RemoveAt(xs, i);
    if i > 0 {
      assert ys[1..] == RemoveAt(xs[1..], i - 1);
      SumRemove(xs[1..], i - 1, f);
    } else {
      assert ys == xs[1..];
    }
  }

  lemma {:induction false} SumSame<T>(xs: seq<T>, ys: seq<T>, f: T -> nat)
    requires |xs| == |ys| && forall k :: 0 <= k < |xs| ==> f(xs[k]) == f(ys[k])
    ensures Sum(xs, f) == Sum(ys, f)
  {
    if xs != [] { SumSame(xs[1..], ys[1..], f); }
  }

  lemma {:induction false} SumLess<T>(xs: seq<T>, ys: seq<T>, i: nat, f: T -> nat)
    requires |xs| == |ys| && i <= |xs| && forall k :: 0 <= k < |xs| ==> f(xs[k]) <= f(ys[k])
    ensures Sum(xs, f) <= Sum(ys, f)
    ensures i < |xs| && f(xs[i]) < f(ys[i]) ==> Sum(xs, f) < Sum(ys, f)
  {
    if xs != [] { SumLess(xs[1..], ys[1..], if i > 0 then i - 1 else |xs| - 1, f); }
  }

  lemma {:induction false} SumBelow<T>(xs: seq<T>, f: T -> nat, g: T -> nat)
    requires forall k :: 0 <= k < |xs| ==> f(xs[k]) <= g(xs[k])
    ensures Sum(xs, f) <= Sum(xs, g)
  {
    if xs != [] { SumBelow(xs[1..], f, g); }
  }

  lemma {:induction false} SumOfNothing<T>(xs: seq<T>, f: T -> nat)
    requires forall k :: 0 <= k < |xs| ==> f(xs[k]) == 0
    ensures Sum(xs, f) == 0
  {
    if xs != [] { SumOfNothing(xs[1..], f); }
  }
}
