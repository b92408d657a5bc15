/** Sums of an integer quantity over a finite set. */
module Sums {

  ghost function Sum<T(!new)>(s: set<T>, f: T -> int): int {
    if s == {} then 0
    else
      var x :| x in s;
      f(x) + Sum(s - {x}, f)
  }

  /** Any element may be summed first. */
  lemma {:induction false} SumRemove<T(!new)>(s: set<T>, f: T -> int, x: T)
    requires x in s
    ensures Sum(s, f) == f(x) + Sum(s - {x}, f)
  {
    var y :| y in s && Sum(s, f) == f(y) + Sum(s - {y}, f);
    if y != x {
      SumRemove(s - {y}, f, x);
      SumRemove(s - {x}, f, y);
      assert s - {y} - {x} == s - {x} - {y};
    }
  }

  lemma {:induction false} SumCongruent<T(!new)>(s: set<T>, f: T -> int, g: T -> int)
    requires forall x | x in s :: f(x) == g(x)
    ensures Sum(s, f) == Sum(s, g)
  {
    if s != {} {
      var x :| x in s && Sum(s, f) == f(x) + Sum(s - {x}, f);
      SumCongruent(s - {x}, f, g);
      SumRemove(s, g, x);
    }
  }

  lemma {:induction false} SumZero<T(!new)>(s: set<T>, f: T -> int)
    requires forall x | x in s :: f(x) == 0
    ensures Sum(s, f) == 0
  {
    if s != {} {
      var x :| x in s && Sum(s, f) == f(x) + Sum(s - {x}, f);
      SumZero(s - {x}, f);
    }
  }

  /** Elements that contribute nothing may be added or left out. */
  lemma SumSupport<T(!new)>(s: set<T>, t: set<T>, f: T -> int)
    requires s <= t
    requires forall x | x in t - s :: f(x) == 0
    ensures Sum(s, f) == Sum(t, f)
    decreases t - s
  {
    if x :| x in t - s {
      SumRemove(t, f, x);
      SumSupport(s, t - {x}, f);
    } else {
      assert s == t by {
        assert forall x | x in t :: x !in t - s ==> x in s;
      }
    }
  }

  /** Changing the quantity at one element changes the sum by just that much. */
  lemma SumChangeAt<T(!new)>(s: set<T>, f: T -> int, g: T -> int, x: T)
    requires x in s
    requires forall y | y in s && y != x :: f(y) == g(y)
    ensures Sum(s, g) == Sum(s, f) - f(x) + g(x)
  {
    SumRemove(s, f, x);
    SumRemove(s, g, x);
    SumCongruent(s - {x}, f, g);
  }
}
