/** Division facts with a variable divisor. */
module Arith {

  /** A product is at least as far from zero as its positive factor, unless it is zero. */
  lemma MulBounds(d: int, e: int)
    requires d >= 1
    ensures e >= 1 ==> d * e >= d
    ensures e <= -1 ==> d * e <= -d
    ensures e == 0 ==> d * e == 0
  {
  }

  /** Quotient and remainder are determined by the equation they satisfy. */
  lemma DivModUnique(x: int, d: int, q: int, r: int)
    requires d >= 1 && 0 <= r < d && x == d * q + r
    ensures x / d == q && x % d == r
  {
    var e := q - x / d;
    assert d * e == x % d - r by {
      assert x == d * (x / d) + x % d;
      assert d * e == d * q - d * (x / d);
    }
    MulBounds(d, e);
  }

  /** Counting up by one, in quotient and remainder. */
  lemma DivModSucc(x: int, d: int)
    requires d >= 1
    ensures x % d == d - 1 ==> (x + 1) / d == x / d + 1 && (x + 1) % d == 0
    ensures x % d < d - 1 ==> (x + 1) / d == x / d && (x + 1) % d == x % d + 1
    ensures (x % d + 1) % d == (x + 1) % d
  {
    assert x == d * (x / d) + x % d;
    if x % d == d - 1 {
      assert x + 1 == d * (x / d + 1) + 0 by { assert d * (x / d + 1) == d * (x / d) + d; }
      DivModUnique(x + 1, d, x / d + 1, 0);
      DivModUnique(d, d, 1, 0);
    } else {
      DivModUnique(x + 1, d, x / d, x % d + 1);
      DivModUnique(x % d + 1, d, 0, x % d + 1);
    }
  }

  /** Numbers less than d apart fall on different remainders. */
  lemma ModApart(a: int, b: int, d: int)
    requires d >= 1 && a < b < a + d
    ensures a % d != b % d
  {
    var e := b / d - a / d;
    assert b - a == d * e + (b % d - a % d) by {
      assert a == d * (a / d) + a % d;
      assert b == d * (b / d) + b % d;
      assert d * e == d * (b / d) - d * (a / d);
    }
    MulBounds(d, e);
  }

  /** How many of the numbers below t leave remainder r, in closed form. */
  function Share(t: nat, n: nat, r: nat): nat
    requires n >= 1
  {
    t / n + if r < t % n then 1 else 0
  }

  /** The same by counting. */
  function CountTurns(t: nat, n: nat, r: nat): nat
    requires n >= 1
  {
    if t == 0 then 0 else CountTurns(t - 1, n, r) + if (t - 1) % n == r then 1 else 0
  }

  /** The numbers below t that leave remainder r. */
  function Turns(t: nat, n: nat, r: nat): set<nat>
    requires n >= 1
  {
    set u: nat | u < t && u % n == r
  }

  lemma {:induction false} CountTurnsIs(t: nat, n: nat, r: nat)
    requires n >= 1
    ensures CountTurns(t, n, r) == |Turns(t, n, r)|
  {
    if t > 0 {
      CountTurnsIs(t - 1, n, r);
      assert Turns(t, n, r) == Turns(t - 1, n, r) + if (t - 1) % n == r then {t - 1} else {};
    }
  }

  lemma {:induction false} ShareCounts(t: nat, n: nat, r: nat)
    requires r < n
    ensures CountTurns(t, n, r) == Share(t, n, r)
  {
    if t == 0 {
      DivModUnique(0, n, 0, 0);
    } else {
      ShareCounts(t - 1, n, r);
      DivModSucc(t - 1, n);
    }
  }
}
