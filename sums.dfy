/** Sums over ordered collections, the `sum(f(x) for x in S)` comprehensions of the
    unit-commitment formulation, evaluated in exact real arithmetic. */
module Sums {

  /** f(xs[0]) + f(xs[1]) + ... , left to right. */
  function SumOver<T>(xs: seq<T>, f: T -> real): real
    decreases |xs|
  {
    if xs == [] then 0.0 else f(xs[0]) + SumOver(xs[1..], f)
  }

  /** Two summands that agree on every element give the same sum. */
  lemma {:induction false} SumExt<T>(xs: seq<T>, f: T -> real, g: T -> real)
    requires forall x :: x in xs ==> f(x) == g(x)
    ensures SumOver(xs, f) == SumOver(xs, g)
    decreases |xs|
  {
    if xs != [] {
      assert xs[0] in xs;
      forall x | x in xs[1..] ensures f(x) == g(x) {
        assert x in xs;
      }
      SumExt(xs[1..], f, g);
    }
  }

  /** A sum of non-negative terms is non-negative. */
  lemma {:induction false} SumNonneg<T>(xs: seq<T>, f: T -> real)
    requires forall x :: x in xs ==> f(x) >= 0.0
    ensures SumOver(xs, f) >= 0.0
    decreases |xs|
  {
    if xs != [] {
      assert xs[0] in xs;
      forall x | x in xs[1..] ensures f(x) >= 0.0 {
        assert x in xs;
      }
      SumNonneg(xs[1..], f);
    }
  }

  /** A positive sum has a positive term. */
  lemma {:induction false} SumPositiveWitness<T>(xs: seq<T>, f: T -> real) returns (w: T)
    requires SumOver(xs, f) > 0.0
    ensures w in xs && f(w) > 0.0
    decreases |xs|
  {
    if f(xs[0]) > 0.0 {
      w := xs[0];
    } else {
      w := SumPositiveWitness(xs[1..], f);
      assert w in xs;
    }
  }

  /** Summing over a concatenation is adding the two sums. */
  lemma {:induction false} SumAppend<T>(xs: seq<T>, ys: seq<T>, f: T -> real)
    ensures SumOver(xs + ys, f) == SumOver(xs, f) + SumOver(ys, f)
    decreases |xs|
  {
    if xs != [] {
      assert (xs + ys)[0] == xs[0];
      assert (xs + ys)[1..] == xs[1..] + ys;
      SumAppend(xs[1..], ys, f);
    } else {
      assert xs + ys == ys;
    }
  }

  /** Taking out the element at position k. */
  lemma SumRemoveAt<T>(ys: seq<T>, k: nat, f: T -> real)
    requires k < |ys|
    ensures SumOver(ys, f) == f(ys[k]) + SumOver(ys[..k] + ys[k + 1..], f)
  {
    var front, mid, back := ys[..k], [ys[k]], ys[k + 1..];
    assert ys == front + (mid + back);
    SumAppend(front, mid + back, f);
    assert (mid + back)[1..] == back;
    assert SumOver(mid + back, f) == f(ys[k]) + SumOver(back, f);
    SumAppend(front, back, f);
  }

  lemma MultisetRemoveAt<T>(xs: seq<T>, ys: seq<T>, k: nat)
    requires xs != [] && k < |ys| && ys[k] == xs[0]
    requires multiset(xs) == multiset(ys)
    ensures multiset(xs[1..]) == multiset(ys[..k] + ys[k + 1..])
  {
    assert xs == [xs[0]] + xs[1..];
    assert ys == ys[..k] + [ys[k]] + ys[k + 1..];
    calc {
      multiset(xs[1..]);
      multiset(xs) - multiset{xs[0]};
      multiset(ys) - multiset{xs[0]};
      multiset(ys[..k]) + multiset(ys[k + 1..]);
      multiset(ys[..k] + ys[k + 1..]);
    }
  }

  /** The sum does not depend on the order of the elements. */
  lemma {:induction false} SumPermutation<T>(xs: seq<T>, ys: seq<T>, f: T -> real)
    requires multiset(xs) == multiset(ys)
    ensures SumOver(xs, f) == SumOver(ys, f)
    decreases |xs|
  {
    if xs != [] {
      assert xs[0] in multiset(ys);
      var k :| 0 <= k < |ys| && ys[k] == xs[0];
      MultisetRemoveAt(xs, ys, k);
      SumPermutation(xs[1..], ys[..k] + ys[k + 1..], f);
      SumRemoveAt(ys, k, f);
    } else {
      assert |ys| == |multiset(ys)| == 0;
    }
  }

  /** Summing a pointwise sum is adding the sums. */
  lemma {:induction false} SumAdd<T>(xs: seq<T>, f: T -> real, g: T -> real, h: T -> real)
    requires forall x :: h(x) == f(x) + g(x)
    ensures SumOver(xs, h) == SumOver(xs, f) + SumOver(xs, g)
    decreases |xs|
  {
    if xs != [] {
      SumAdd(xs[1..], f, g, h);
    }
  }

  /** Summing a pointwise difference is subtracting the sums. */
  lemma {:induction false} SumSub<T>(xs: seq<T>, f: T -> real, g: T -> real, h: T -> real)
    requires forall x :: x in xs ==> h(x) == f(x) - g(x)
    ensures SumOver(xs, h) == SumOver(xs, f) - SumOver(xs, g)
    decreases |xs|
  {
    if xs != [] {
      assert xs[0] in xs;
      forall x | x in xs[1..] ensures h(x) == f(x) - g(x) {
        assert x in xs;
      }
      SumSub(xs[1..], f, g, h);
    }
  }

  /** A constant factor moves out of the sum. */
  lemma {:induction false} SumScale<T>(xs: seq<T>, c: real, f: T -> real, h: T -> real)
    requires forall x :: x in xs ==> h(x) == c * f(x)
    ensures SumOver(xs, h) == c * SumOver(xs, f)
    decreases |xs|
  {
    if xs != [] {
      assert xs[0] in xs;
      forall x | x in xs[1..] ensures h(x) == c * f(x) {
        assert x in xs;
      }
      SumScale(xs[1..], c, f, h);
      assert SumOver(xs, h) == c * f(xs[0]) + c * SumOver(xs[1..], f);
    }
  }

  /** Summing c·f(x) − g(x) is c times the sum of f minus the sum of g. */
  lemma {:induction false} SumAffine<T>(xs: seq<T>, c: real, f: T -> real, g: T -> real, h: T -> real)
    requires forall x :: x in xs ==> h(x) == c * f(x) - g(x)
    ensures SumOver(xs, h) == c * SumOver(xs, f) - SumOver(xs, g)
    decreases |xs|
  {
    if xs != [] {
      assert xs[0] in xs;
      forall x | x in xs[1..] ensures h(x) == c * f(x) - g(x) {
        assert x in xs;
      }
      SumAffine(xs[1..], c, f, g, h);
      assert SumOver(xs, h) == c * f(xs[0]) - g(xs[0]) + (c * SumOver(xs[1..], f) - SumOver(xs[1..], g));
    }
  }

  /** A sum of zeros is zero. */
  lemma {:induction false} SumZero<T>(xs: seq<T>, f: T -> real)
    requires forall x :: x in xs ==> f(x) == 0.0
    ensures SumOver(xs, f) == 0.0
    decreases |xs|
  {
    if xs != [] {
      assert xs[0] in xs;
      forall x | x in xs[1..] ensures f(x) == 0.0 {
        assert x in xs;
      }
      SumZero(xs[1..], f);
    }
  }

  /** The order of a double sum can be exchanged: row(x) sums F(x) over ys, col(y) sums
      G(y) over xs, and G is F with its arguments swapped. */
  lemma {:induction false} SumSwap<T, U>(xs: seq<T>, ys: seq<U>, F: T -> U -> real, G: U -> T -> real,
                                         row: T -> real, col: U -> real)
    requires forall x, y :: G(y)(x) == F(x)(y)
    requires forall x :: row(x) == SumOver(ys, F(x))
    requires forall y :: col(y) == SumOver(xs, G(y))
    ensures SumOver(xs, row) == SumOver(ys, col)
    decreases |xs|
  {
    if xs == [] {
      SumZero(ys, col);
    } else {
      var rest := (y: U) => SumOver(xs[1..], G(y));
      SumSwap(xs[1..], ys, F, G, row, rest);
      SumAdd(ys, F(xs[0]), rest, col);
    }
  }
}
