/** Powers of two, and the bitwise "and" the C sources use for ring indices and power-of-two tests. */
module Bits {

  function Pow2(n: nat): (r: nat)
    ensures r >= 1
  {
    if n == 0 then 1 else 2 * Pow2(n - 1)
  }

  predicate IsPow2(x: nat) {
    x == 1 || (x > 1 && x % 2 == 0 && IsPow2(x / 2))
  }

  /** Bitwise conjunction of two unsigned numbers. */
  function And(x: nat, y: nat): nat {
    if x == 0 || y == 0 then 0 else (if x % 2 == 1 && y % 2 == 1 then 1 else 0) + 2 * And(x / 2, y / 2)
  }

  lemma {:induction false} Pow2Add(a: nat, b: nat)
    ensures Pow2(a + b) == Pow2(a) * Pow2(b)
  {
    if a != 0 {
      Pow2Add(a - 1, b);
      DoubleProduct(Pow2(a - 1), Pow2(b));
    }
  }

  lemma DoubleProduct(p: nat, q: nat)
    ensures 2 * (p * q) == 2 * p * q
  {
  }

  lemma {:induction false} Pow2Monotone(a: nat, b: nat)
    ensures a < b <==> Pow2(a) < Pow2(b)
    decreases a + b
  {
    if a != 0 && b != 0 { Pow2Monotone(a - 1, b - 1); }
  }

  lemma {:induction false} Pow2IsPow2(n: nat)
    ensures IsPow2(Pow2(n))
  {
    if n != 0 { Pow2IsPow2(n - 1); }
  }

  /** Masking with size - 1 is reduction modulo the size, for every power-of-two size. */
  lemma {:induction false} AndMask(x: nat, n: nat)
    ensures And(x, Pow2(n) - 1) == x % Pow2(n)
  {
    if n != 0 {
      AndMask(x / 2, n - 1);
      MaskDouble(x, Pow2(n - 1), Pow2(n));
    }
  }

  lemma MaskDouble(x: nat, p: nat, d: nat)
    requires p > 0 && d == 2 * p && And(x / 2, p - 1) == x / 2 % p
    ensures And(x, d - 1) == x % d
  {
    var r := x / 2 % p;
    assert And(x, d - 1) == x % 2 + 2 * r by { MaskOdd(x, p - 1, d - 1); }
    assert x % d == x % 2 + 2 * r by { ModDouble(x, p); }
  }

  lemma MaskOdd(x: nat, m: nat, y: nat)
    requires y == 2 * m + 1
    ensures And(x, y) == x % 2 + 2 * And(x / 2, m)
  {
    AndOdd(x, m);
  }

  lemma AndOdd(x: nat, m: nat)
    ensures And(x, 2 * m + 1) == x % 2 + 2 * And(x / 2, m)
  {
  }

  lemma ModDouble(x: nat, p: nat)
    requires p > 0
    ensures x % (2 * p) == x % 2 + 2 * (x / 2 % p)
  {
    var q, r := x / 2 / p, x / 2 % p;
    assert x == (2 * p) * q + (x % 2 + 2 * r);
    ModUnique(x, 2 * p, q, x % 2 + 2 * r);
  }

  /** Division with remainder is unique. */
  lemma ModUnique(x: int, m: int, q: int, r: int)
    requires m > 0 && 0 <= r < m && x == m * q + r
    ensures x % m == r && x / m == q
  {
    var d := q - x / m;
    assert m * d == x % m - r by {
      assert x == m * (x / m) + x % m;
      assert m * q - m * (x / m) == m * d;
    }
    MulBounds(m, d);
  }

  lemma MulBounds(m: int, d: int)
    requires m > 0
    ensures d >= 1 ==> m * d >= m
    ensures d <= -1 ==> m * d <= -m
  {
  }

  /** The source's test: x & (x - 1) is zero exactly for powers of two. */
  lemma {:induction false} AndPredecessor(x: nat)
    requires x >= 1
    ensures And(x, x - 1) == 0 <==> IsPow2(x)
  {
    if x == 1 {
    } else if x % 2 == 0 {
      AndPredecessor(x / 2);
      assert (x - 1) / 2 == x / 2 - 1;
    } else {
      assert (x - 1) / 2 == x / 2;
      AndSelf(x / 2);
    }
  }

  lemma {:induction false} AndSelf(x: nat)
    ensures And(x, x) == x
  {
    if x != 0 { AndSelf(x / 2); }
  }

  function Log2(x: nat): nat {
    if x <= 1 then 0 else 1 + Log2(x / 2)
  }

  lemma {:induction false} Log2Pow2(n: nat)
    ensures Log2(Pow2(n)) == n
  {
    if n != 0 { Log2Pow2(n - 1); }
  }

  lemma {:induction false} Pow2Log2(x: nat)
    requires IsPow2(x)
    ensures Pow2(Log2(x)) == x
  {
    if x != 1 { Pow2Log2(x / 2); }
  }
}
