/** Sums over the elements of a sequence, and how often they occur. */
module Sums {
  function Sum<T>(xs: seq<T>, f: T -> int): int {
    if xs == [] then 0 else f(xs[0]) + Sum(xs[1..], f)
  }

  lemma {:induction false} SumUpdate<T>(xs: seq<T>, i: nat, y: T, f: T -> int)
    requires i < |xs|
    ensures Sum(xs[i := y], f) == Sum(xs, f) - f(xs[i]) + f(y)
  {
    if i == 0 {
      assert xs[i := y][1..] == xs[1..];
    } else {
      assert xs[i := y][1..] == xs[1..][i - 1 := y];
      SumUpdate(xs[1..], i - 1, y, f);
    }
  }

  lemma {:induction false} SumBound<T>(xs: seq<T>, f: T -> int, g: T -> int)
    requires forall x | x in xs :: f(x) <= g(x)
    ensures Sum(xs, f) <= Sum(xs, g)
  {
    if xs != [] { SumBound(xs[1..], f, g); }
  }

  lemma {:induction false} SumSame<T>(xs: seq<T>, f: T -> int, g: T -> int)
    requires forall x | x in xs :: f(x) == g(x)
    ensures Sum(xs, f) == Sum(xs, g)
  {
    if xs != [] { SumSame(xs[1..], f, g); }
  }

  lemma {:induction false} SumAtLeast<T>(xs: seq<T>, i: nat, f: T -> int)
    requires i < |xs| && forall x | x in xs :: f(x) >= 0
    ensures Sum(xs, f) >= f(xs[i])
  {
    if i > 0 {
      SumAtLeast(xs[1..], i - 1, f);
    } else {
      SumNat(xs[1..], f);
    }
  }

  lemma {:induction false} SumNat<T>(xs: seq<T>, f: T -> int)
    requires forall x | x in xs :: f(x) >= 0
    ensures Sum(xs, f) >= 0
  {
    if xs != [] { SumNat(xs[1..], f); }
  }

  lemma {:induction false} SumTwo<T>(xs: seq<T>, i: nat, j: nat, f: T -> int)
    requires i < j < |xs| && forall x | x in xs :: f(x) >= 0
    ensures Sum(xs, f) >= f(xs[i]) + f(xs[j])
  {
    if i > 0 {
      SumTwo(xs[1..], i - 1, j - 1, f);
    } else {
      SumAtLeast(xs[1..], j - 1, f);
    }
  }

  lemma {:induction false} SumPositive<T>(xs: seq<T>, f: T -> int)
    requires Sum(xs, f) > 0
    ensures exists i :: 0 <= i < |xs| && f(xs[i]) > 0
  {
    if f(xs[0]) <= 0 {
      SumPositive(xs[1..], f);
      var i :| 0 <= i < |xs[1..]| && f(xs[1..][i]) > 0;
      assert f(xs[i + 1]) > 0;
    }
  }

  lemma {:induction false} SumAgainst<T>(xs: seq<T>, f: T -> int, g: T -> int)
    requires forall x | x in xs :: f(x) >= -g(x)
    ensures Sum(xs, f) >= -Sum(xs, g)
  {
    if xs != [] { SumAgainst(xs[1..], f, g); }
  }

  lemma {:induction false} SumAppend<T>(xs: seq<T>, y: T, f: T -> int)
    ensures Sum(xs + [y], f) == Sum(xs, f) + f(y)
  {
    if xs == [] {
      assert xs + [y] == [y] && [y][1..] == [];
    } else {
      assert (xs + [y])[1..] == xs[1..] + [y];
      SumAppend(xs[1..], y, f);
    }
  }

  lemma {:induction false} SumZero<T>(xs: seq<T>, f: T -> int)
    requires forall x | x in xs :: f(x) == 0
    ensures Sum(xs, f) == 0
  {
    if xs != [] { SumZero(xs[1..], f); }
  }

  lemma {:induction false} SumWithin<T>(xs: seq<T>, f: T -> int, g: T -> int, h: T -> int, k: int)
    requires forall x | x in xs :: f(x) <= g(x) + k * h(x)
    ensures Sum(xs, f) <= Sum(xs, g) + k * Sum(xs, h)
  {
    if xs != [] { SumWithin(xs[1..], f, g, h, k); }
  }

  lemma Tail<T>(xs: seq<T>)
    requires xs != []
    ensures multiset(xs) == multiset(xs[1..]) + multiset{xs[0]}
  {
    assert xs == [xs[0]] + xs[1..];
  }
}
