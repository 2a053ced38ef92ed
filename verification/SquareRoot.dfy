/** llsqrt: an integer square root by Newton's method on a signed 64-bit word. */
module SquareRoot {
  const LLONG_MAX := 0x7fff_ffff_ffff_ffff
  const LLONG_MIN := -0x8000_0000_0000_0000

  /** The integer square root. */
  ghost function Root(a: nat): (s: nat)
    ensures s * s <= a < (s + 1) * (s + 1)
  {
    if a == 0 then 0
    else
      var s := Root(a - 1);
      if (s + 1) * (s + 1) <= a then s + 1 else s
  }

  lemma Monotone(a: int, b: int, x: nat)
    requires a <= b
    ensures a * x <= b * x
  {
  }

  lemma SquareLess(u: nat, v: nat)
    requires u * u < v * v
    ensures u < v
  {
    if v <= u {
      Monotone(v, u, u);
      Monotone(v, u, v);
    }
  }

  /** Twice the geometric mean is at most the sum. */
  lemma TwiceMean(p: int, x: int)
    ensures 4 * (p * x) <= (p + x) * (p + x)
  {
    var d := p - x;
    assert d * d >= 0;
    assert d * d == p * p - 2 * (p * x) + x * x;
    assert (p + x) * (p + x) == p * p + 2 * (p * x) + x * x;
  }

  lemma NotBelow(a: nat, s: nat, x: nat, q: nat)
    requires s * s <= a < (q + 1) * x
    ensures 2 * s <= x + q
  {
    TwiceMean(q + 1, x);
    assert (2 * s) * (2 * s) == 4 * (s * s);
    SquareLess(2 * s, q + 1 + x);
  }

  lemma Falls(a: nat, s: nat, x: nat, q: nat)
    requires a < (s + 1) * (s + 1) && x > s && q * x <= a
    ensures q < x
  {
    if q >= x {
      Monotone(x, q, x);
      Monotone(s + 1, x, x);
      Monotone(s + 1, x, s + 1);
    }
  }

  lemma AtRoot(a: nat, s: nat, q: nat)
    requires s >= 1 && s * s <= a < (s + 1) * (s + 1) && q * s <= a < (q + 1) * s
    ensures q == s || q == s + 1 || q == s + 2
    ensures q == s + 2 <==> a + 1 == (s + 1) * (s + 1)
  {
    assert (s + 1) * (s + 1) == s * s + 2 * s + 1;
    assert (s + 2) * s == s * s + 2 * s;
    if q < s {
      Monotone(q + 1, s, s);
    } else if q > s + 2 {
      Monotone(s + 3, q, s);
    } else if q < s + 2 {
      Monotone(q + 1, s + 2, s);
    }
  }

  /** A step never falls below the root, falls while it is above it, and at the
      root stays, or goes one up if a + 1 is the next square. */
  lemma NewtonStep(a: nat, s: nat, x: nat)
    requires s * s <= a < (s + 1) * (s + 1) && x >= s >= 1
    ensures var y := (x + a / x) / 2;
      && y >= s && (x > s ==> y < x)
      && (x == s ==> y == if a + 1 == (s + 1) * (s + 1) then s + 1 else s)
  {
    var q := a / x;
    assert q * x <= a < (q + 1) * x;
    NotBelow(a, s, x, q);
    if x > s {
      Falls(a, s, x, q);
    } else {
      AtRoot(a, s, q);
    }
  }

  lemma AtLeastOne(a: nat, x: nat)
    requires 1 <= x <= a
    ensures a / x >= 1
  {
  }

  /** The sum never leaves the word. */
  lemma NoOverflow(a: nat, x: nat)
    requires 1 <= x <= a
    ensures x + a / x <= a + 1
  {
    var q := a / x;
    assert q * x <= a;
    AtLeastOne(a, x);
    Monotone(0, q - 1, x - 1);
    assert (q - 1) * (x - 1) == q * x - q - x + 1;
  }

  /** For every word from 1 up to the last but one this is the root of a + 1; the
      others are returned as they are. */
  method Llsqrt(a: int) returns (x: int)
    requires LLONG_MIN <= a <= LLONG_MAX
    ensures 1 <= a < LLONG_MAX ==> 0 < x && x * x <= a + 1 < (x + 1) * (x + 1)
    ensures a <= 0 || a == LLONG_MAX ==> x == a
  {
    var prev := LLONG_MAX;
    x := a;
    if x > 0 {
      ghost var s := Root(a);
      RootBounds(a, s);
      while x < prev
        invariant 1 <= s <= x <= LLONG_MAX
        invariant (prev == LLONG_MAX && x == a) || (s <= prev <= a < LLONG_MAX && x == (prev + a / prev) / 2)
        decreases prev
      {
        prev := x;
        NoOverflow(a, x);
        assert x + a / x <= LLONG_MAX;
        NewtonStep(a, s, x);
        x := (x + a / x) / 2;
      }
      if a < LLONG_MAX {
        NewtonStep(a, s, prev);
        assert prev == s;
        RootOfNext(a, s, x);
      }
    }
  }

  lemma RootBounds(a: nat, s: nat)
    requires a >= 1 && s * s <= a < (s + 1) * (s + 1)
    ensures 1 <= s <= a
  {
    if s > a {
      Monotone(1, s, s);
    }
  }

  lemma RootOfNext(a: nat, s: nat, x: nat)
    requires s * s <= a < (s + 1) * (s + 1)
    requires x == if a + 1 == (s + 1) * (s + 1) then s + 1 else s
    ensures x * x <= a + 1 < (x + 1) * (x + 1)
  {
    if x == s + 1 {
      assert (s + 2) * (s + 2) == (s + 1) * (s + 1) + 2 * s + 3;
    }
  }
}
