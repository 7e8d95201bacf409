/** Finite sums of reals, over sequences and over sets, and the laws the scorer needs. */
module Sums {
  function Sum<T>(xs: seq<T>, f: T -> real): real {
    if xs == [] then 0.0 else f(xs[0]) + Sum(xs[1..], f)
  }

  lemma {:induction false} SumAppend<T>(a: seq<T>, b: seq<T>, f: T -> real)
    ensures Sum(a + b, f) == Sum(a, f) + Sum(b, f)
  {
    if a == [] {
      assert a + b == b;
    } else {
      assert (a + b)[1..] == a[1..] + b;
      SumAppend(a[1..], b, f);
    }
  }

  lemma SumOne<T>(x: T, f: T -> real)
    ensures Sum([x], f) == f(x)
    ensures Sum([], f) == 0.0
  {
    assert [x][1..] == [];
  }

  lemma SumSnoc<T>(xs: seq<T>, x: T, f: T -> real)
    ensures Sum(xs + [x], f) == Sum(xs, f) + f(x)
  {
    SumAppend(xs, [x], f);
  }

  lemma {:induction false} SumEqual<T>(xs: seq<T>, f: T -> real, g: T -> real)
    requires forall x :: x in xs ==> f(x) == g(x)
    ensures Sum(xs, f) == Sum(xs, g)
  {
    if xs != [] {
      SumEqual(xs[1..], f, g);
    }
  }

  lemma {:induction false} SumMonotone<T>(xs: seq<T>, f: T -> real, g: T -> real)
    requires forall x :: x in xs ==> f(x) <= g(x)
    ensures Sum(xs, f) <= Sum(xs, g)
  {
    if xs != [] {
      SumMonotone(xs[1..], f, g);
    }
  }

  lemma {:induction false} SumScaled<T>(xs: seq<T>, f: T -> real, g: T -> real, k: real)
    requires forall x :: x in xs ==> g(x) == Scale(k, f(x))
    ensures Sum(xs, g) == Scale(k, Sum(xs, f))
  {
    if xs == [] {
      assert Scale(k, 0.0) == 0.0;
    } else {
      hide Scale;
      SumScaled(xs[1..], f, g, k);
      ScaleAdds(k, f(xs[0]), Sum(xs[1..], f));
    }
  }

  function Scale(k: real, x: real): real { k * x }

  lemma ScaleAdds(k: real, a: real, b: real)
    ensures Scale(k, a + b) == Scale(k, a) + Scale(k, b)
  {
  }

  /** What the weighted terms leave over from a common level. */
  lemma {:induction false} SumOff<T>(xs: seq<T>, w: T -> real, v: T -> real, off: T -> real, m: real)
    requires forall x :: x in xs ==> off(x) == v(x) - Scale(m, w(x))
    ensures Sum(xs, off) == Sum(xs, v) - Scale(m, Sum(xs, w))
  {
    if xs == [] {
      assert Scale(m, 0.0) == 0.0;
    } else {
      hide Scale;
      SumOff(xs[1..], w, v, off, m);
      ScaleAdds(m, w(xs[0]), Sum(xs[1..], w));
    }
  }

  lemma {:induction false} SumNonNegative<T>(xs: seq<T>, f: T -> real)
    requires forall x :: x in xs ==> f(x) >= 0.0
    ensures Sum(xs, f) >= 0.0
  {
    if xs != [] {
      SumNonNegative(xs[1..], f);
    }
  }

  lemma {:induction false} SumZero<T>(xs: seq<T>, f: T -> real)
    requires forall x :: x in xs ==> f(x) == 0.0
    ensures Sum(xs, f) == 0.0
  {
    if xs != [] {
      SumZero(xs[1..], f);
    }
  }

  /** Dropping one element subtracts exactly its term. */
  lemma SumDelete<T>(xs: seq<T>, i: nat, f: T -> real)
    requires i < |xs|
    ensures Sum(xs, f) == f(xs[i]) + Sum(xs[..i] + xs[i + 1..], f)
  {
    hide Sum;
    assert xs == xs[..i] + ([xs[i]] + xs[i + 1..]);
    SumOne(xs[i], f);
    SumAppend(xs[..i], [xs[i]] + xs[i + 1..], f);
    SumAppend([xs[i]], xs[i + 1..], f);
    SumAppend(xs[..i], xs[i + 1..], f);
  }

  /** The order of the terms does not matter. */
  lemma {:induction false} SumPermuted<T>(a: seq<T>, b: seq<T>, f: T -> real)
    requires multiset(a) == multiset(b)
    ensures Sum(a, f) == Sum(b, f)
  {
    assert |a| == |multiset(a)| == |multiset(b)| == |b|;
    if a != [] {
      assert a[0] in multiset(b);
      var i :| 0 <= i < |b| && b[i] == a[0];
      var rest := b[..i] + b[i + 1..];
      SumDelete(b, i, f);
      assert a == [a[0]] + a[1..];
      assert b == b[..i] + [b[i]] + b[i + 1..];
      assert multiset(rest) == multiset(b) - multiset{b[i]};
      assert multiset(a[1..]) == multiset(a) - multiset{a[0]};
      SumPermuted(a[1..], rest, f);
    }
  }

  ghost function SetSum<T(!new)>(s: set<T>, f: T -> real): real {
    if s == {} then 0.0 else
      var x :| x in s;
      f(x) + SetSum(s - {x}, f)
  }

  /** Any element may be taken out first. */
  lemma {:induction false} SetSumPick<T(!new)>(s: set<T>, x: T, f: T -> real)
    requires x in s
    ensures SetSum(s, f) == f(x) + SetSum(s - {x}, f)
    decreases s
  {
    var y :| y in s && SetSum(s, f) == f(y) + SetSum(s - {y}, f);
    if y != x {
      SetSumPick(s - {y}, x, f);
      SetSumPick(s - {x}, y, f);
      assert s - {y} - {x} == s - {x} - {y};
    }
  }

  lemma {:induction false} SetSumEqual<T(!new)>(s: set<T>, f: T -> real, g: T -> real)
    requires forall x :: x in s ==> f(x) == g(x)
    ensures SetSum(s, f) == SetSum(s, g)
    decreases s
  {
    if s != {} {
      var x :| x in s;
      SetSumPick(s, x, f);
      SetSumPick(s, x, g);
      SetSumEqual(s - {x}, f, g);
    }
  }

  lemma {:induction false} SetSumMonotone<T(!new)>(s: set<T>, f: T -> real, g: T -> real)
    requires forall x :: x in s ==> f(x) <= g(x)
    ensures SetSum(s, f) <= SetSum(s, g)
    decreases s
  {
    if s != {} {
      var x :| x in s;
      SetSumPick(s, x, f);
      SetSumPick(s, x, g);
      SetSumMonotone(s - {x}, f, g);
    }
  }

  lemma {:induction false} SetSumScaled<T(!new)>(s: set<T>, f: T -> real, g: T -> real, k: real)
    requires forall x :: x in s ==> g(x) == Scale(k, f(x))
    ensures SetSum(s, g) == Scale(k, SetSum(s, f))
    decreases s
  {
    if s != {} {
      var x :| x in s;
      SetSumPick(s, x, f);
      SetSumPick(s, x, g);
      hide Scale;
      SetSumScaled(s - {x}, f, g, k);
      ScaleAdds(k, f(x), SetSum(s - {x}, f));
    } else {
      assert Scale(k, 0.0) == 0.0;
    }
  }

  lemma {:induction false} SetSumOff<T(!new)>(s: set<T>, w: T -> real, v: T -> real, off: T -> real, m: real)
    requires forall x :: x in s ==> off(x) == v(x) - Scale(m, w(x))
    ensures SetSum(s, off) == SetSum(s, v) - Scale(m, SetSum(s, w))
    decreases s
  {
    if s != {} {
      var x :| x in s;
      SetSumPick(s, x, w);
      SetSumPick(s, x, v);
      SetSumPick(s, x, off);
      hide Scale;
      SetSumOff(s - {x}, w, v, off, m);
      ScaleAdds(m, w(x), SetSum(s - {x}, w));
    } else {
      assert Scale(m, 0.0) == 0.0;
    }
  }

  lemma {:induction false} SetSumNonNegative<T(!new)>(s: set<T>, f: T -> real)
    requires forall x :: x in s ==> f(x) >= 0.0
    ensures SetSum(s, f) >= 0.0
    decreases s
  {
    if s != {} {
      var x :| x in s;
      SetSumPick(s, x, f);
      SetSumNonNegative(s - {x}, f);
    }
  }

  /** Elements whose term is zero may be left out. */
  lemma {:induction false} SetSumShrinks<T(!new)>(s: set<T>, t: set<T>, f: T -> real)
    requires t <= s && forall x :: x in s - t ==> f(x) == 0.0
    ensures SetSum(s, f) == SetSum(t, f)
    decreases s
  {
    if s - t == {} {
      forall x | x in s
        ensures x in t
      {
        assert x !in s - t;
      }
      assert s == t;
    } else {
      var x :| x in s - t;
      SetSumPick(s, x, f);
      SetSumShrinks(s - {x}, t, f);
    }
  }
}
