/** Finite sums of money and token amounts over sets of keys. */
module Sums {

  datatype Amount = Amount(money: real, tokens: int) {
    function Plus(other: Amount): Amount {
      Amount(money + other.money, tokens + other.tokens)
    }

    function Minus(other: Amount): Amount {
      Amount(money - other.money, tokens - other.tokens)
    }
  }

  const ZERO: Amount := Amount(0.0, 0)

  ghost function Sum<T(!new)>(xs: set<T>, f: T -> Amount): Amount {
    if xs == {} then ZERO else var x :| x in xs; f(x).Plus(Sum(xs - {x}, f))
  }

  /** Any element can be taken out of a sum first. */
  lemma {:induction false} SumRemove<T(!new)>(xs: set<T>, f: T -> Amount, x: T)
    requires x in xs
    ensures Sum(xs, f) == f(x).Plus(Sum(xs - {x}, f))
    decreases xs
  {
    var y :| y in xs && Sum(xs, f) == f(y).Plus(Sum(xs - {y}, f));
    if y != x {
      assert xs - {y} - {x} == xs - {x} - {y};
      SumRemove(xs - {y}, f, x);
      SumRemove(xs - {x}, f, y);
      var rest := Sum(xs - {x} - {y}, f);
      assert f(y).Plus(f(x).Plus(rest)) == f(x).Plus(f(y).Plus(rest));
    }
  }

  lemma SumInsert<T(!new)>(xs: set<T>, f: T -> Amount, x: T)
    requires x !in xs
    ensures Sum(xs + {x}, f) == Sum(xs, f).Plus(f(x))
  {
    SumRemove(xs + {x}, f, x);
    assert xs + {x} - {x} == xs;
  }

  lemma {:induction false} SumCongruence<T(!new)>(xs: set<T>, f: T -> Amount, g: T -> Amount)
    requires forall x :: x in xs ==> f(x) == g(x)
    ensures Sum(xs, f) == Sum(xs, g)
    decreases xs
  {
    if xs == {} {
    } else {
      var x :| x in xs;
      SumRemove(xs, f, x);
      SumRemove(xs, g, x);
      SumCongruence(xs - {x}, f, g);
    }
  }

  /** Changing the summand at one key changes the sum by the difference there. */
  lemma SumUpdate<T(!new)>(xs: set<T>, f: T -> Amount, g: T -> Amount, k: T)
    requires k in xs
    requires forall x :: x in xs && x != k ==> f(x) == g(x)
    ensures Sum(xs, g) == Sum(xs, f).Minus(f(k)).Plus(g(k))
  {
    SumRemove(xs, f, k);
    SumRemove(xs, g, k);
    SumCongruence(xs - {k}, f, g);
  }

  /** Keys that contribute nothing can be left out. */
  lemma {:induction false} SumRestrict<T(!new)>(xs: set<T>, ys: set<T>, f: T -> Amount)
    requires ys <= xs
    requires forall x :: x in xs && x !in ys ==> f(x) == ZERO
    ensures Sum(xs, f) == Sum(ys, f)
    decreases xs
  {
    if x :| x in xs && x !in ys {
      SumRemove(xs, f, x);
      SumRestrict(xs - {x}, ys, f);
    } else {
      assert xs == ys;
    }
  }

  /** A sum over keys equals the sum over their images under a bijection. */
  lemma {:induction false} SumReindex<S(!new), T(!new)>(xs: set<S>, ys: set<T>, to: S -> T, back: T -> S,
                                        f: S -> Amount, g: T -> Amount)
    requires forall x :: x in xs ==> to(x) in ys && back(to(x)) == x && f(x) == g(to(x))
    requires forall y :: y in ys ==> back(y) in xs && to(back(y)) == y
    ensures Sum(xs, f) == Sum(ys, g)
    decreases xs
  {
    if xs == {} {
      assert ys == {};
    } else {
      var x :| x in xs;
      SumRemove(xs, f, x);
      SumRemove(ys, g, to(x));
      SumReindex(xs - {x}, ys - {to(x)}, to, back, f, g);
    }
  }

  lemma {:induction false} SumDifference<T(!new)>(xs: set<T>, f: T -> Amount, g: T -> Amount, h: T -> Amount)
    requires forall x :: x in xs ==> f(x) == g(x).Minus(h(x))
    ensures Sum(xs, f) == Sum(xs, g).Minus(Sum(xs, h))
    decreases xs
  {
    if xs == {} {
    } else {
      var x :| x in xs;
      SumRemove(xs, f, x);
      SumRemove(xs, g, x);
      SumRemove(xs, h, x);
      SumDifference(xs - {x}, f, g, h);
    }
  }

  /** Dropping keys with non-negative money cannot raise the total. */
  lemma {:induction false} SumSubset<T(!new)>(ys: set<T>, xs: set<T>, f: T -> Amount)
    requires ys <= xs
    requires forall x :: x in xs ==> f(x).money >= 0.0
    ensures Sum(ys, f).money <= Sum(xs, f).money
    decreases xs
  {
    if x :| x in xs && x !in ys {
      SumRemove(xs, f, x);
      SumSubset(ys, xs - {x}, f);
    } else {
      assert xs == ys;
    }
  }

  lemma {:induction false} SubsetCardinality<T(!new)>(a: set<T>, b: set<T>)
    requires a <= b
    ensures |a| <= |b|
    ensures a != b ==> |a| < |b|
    decreases a
  {
    if a == {} {
      assert b != {} ==> |b| > 0;
    } else {
      var x :| x in a;
      SubsetCardinality(a - {x}, b - {x});
      assert a == (a - {x}) + {x} && b == (b - {x}) + {x};
    }
  }
}
