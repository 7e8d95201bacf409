/** Python's `round(x, n)` over the reals: to the nearest multiple, ties to the even one. */
module Rounding {
  function HalfEven(x: real): (n: int)
    ensures x - 0.5 <= n as real <= x + 0.5
  {
    var below := x.Floor;
    var rest := x - below as real;
    if rest < 0.5 then below
    else if rest > 0.5 then below + 1
    else if below % 2 == 0 then below
    else below + 1
  }

  /** Rounding to `1 / scale`; `scale` is a power of ten at every call. */
  function RoundTo(x: real, scale: real): real
    requires scale > 0.0
  {
    HalfEven(x * scale) as real / scale
  }

  function Round1(x: real): real { RoundTo(x, 10.0) }
  function Round2(x: real): real { RoundTo(x, 100.0) }
  function Round3(x: real): real { RoundTo(x, 1000.0) }
  function Round4(x: real): real { RoundTo(x, 10000.0) }

  lemma HalfEvenMonotone(x: real, y: real)
    requires x <= y
    ensures HalfEven(x) <= HalfEven(y)
  {
    if x.Floor == y.Floor {
    } else {
      assert x.Floor < y.Floor;
      assert HalfEven(x) <= x.Floor + 1 <= y.Floor <= HalfEven(y);
    }
  }

  lemma HalfEvenFixes(n: int)
    ensures HalfEven(n as real) == n
  {
  }

  lemma RoundMonotone(x: real, y: real, scale: real)
    requires scale > 0.0 && x <= y
    ensures RoundTo(x, scale) <= RoundTo(y, scale)
  {
    assert x * scale <= y * scale;
    HalfEvenMonotone(x * scale, y * scale);
    DivideMonotone(HalfEven(x * scale) as real, HalfEven(y * scale) as real, scale);
  }

  lemma DivideMonotone(a: real, b: real, d: real)
    requires d > 0.0 && a <= b
    ensures a / d <= b / d
  {
  }

  lemma RoundExact(x: real, n: int, scale: real)
    requires scale > 0.0 && x * scale == n as real
    ensures RoundTo(x, scale) == n as real / scale
  {
    HalfEvenFixes(n);
  }

  /** A multiple of `1 / scale` is its own rounding. */
  lemma RoundFixes(n: int, scale: real)
    requires scale > 0.0
    ensures RoundTo(n as real / scale, scale) == n as real / scale
  {
    var x := n as real / scale;
    assert x * scale == n as real;
    RoundExact(x, n, scale);
  }

  /** Rounding keeps a value between two representable bounds. */
  lemma RoundBounded(x: real, lo: int, hi: int, scale: real)
    requires scale > 0.0
    requires lo as real / scale <= x <= hi as real / scale
    ensures lo as real / scale <= RoundTo(x, scale) <= hi as real / scale
  {
    RoundFixes(lo, scale);
    RoundFixes(hi, scale);
    RoundMonotone(lo as real / scale, x, scale);
    RoundMonotone(x, hi as real / scale, scale);
  }

  /** The rounded value is a multiple of `1 / scale` that no other is nearer than; halfway it is the even one. */
  lemma RoundMeaning(x: real, scale: real, n: int)
    requires scale > 0.0 && RoundTo(x, scale) == n as real / scale
    ensures n as real - 0.5 <= x * scale <= n as real + 0.5
    ensures x * scale == n as real - 0.5 || x * scale == n as real + 0.5 ==> n % 2 == 0
  {
    SameNumerator(HalfEven(x * scale), n, scale);
  }

  lemma SameNumerator(a: int, b: int, scale: real)
    requires scale > 0.0 && a as real / scale == b as real / scale
    ensures a == b
  {
    assert a as real / scale * scale == a as real && b as real / scale * scale == b as real;
  }
}
