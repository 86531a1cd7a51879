/** The linear congruential generator shared by the C++ and Java libraries, and its full period. */
module Randoms {
  import Bits

  const MULTIPLIER: nat := 0x5DEECE66D
  const INCREMENT: nat := 0xB

  /** One step modulo 2 to the k. */
  function Step(a: nat, c: nat, k: nat, x: nat): (r: nat)
    ensures r < Bits.Pow2(k)
  {
    (a * x + c) % Bits.Pow2(k)
  }

  function Steps(a: nat, c: nat, k: nat, x: nat, n: nat): (r: nat)
    ensures x < Bits.Pow2(k) ==> r < Bits.Pow2(k)
  {
    if n == 0 then x else Step(a, c, k, Steps(a, c, k, x, n - 1))
  }

  // ---- Powers of two that divide ----

  /** 2 to the k divides x. */
  predicate Divides(k: nat, x: nat) {
    k == 0 || (x % 2 == 0 && Divides(k - 1, x / 2))
  }

  lemma {:induction false} DividesIsMod(k: nat, x: nat)
    ensures Divides(k, x) <==> x % Bits.Pow2(k) == 0
  {
    if k == 0 {
      Bits.ModUnique(x, 1, x, 0);
    } else {
      DividesIsMod(k - 1, x / 2);
      Bits.ModDouble(x, Bits.Pow2(k - 1));
    }
  }

  /** An odd factor makes no difference. */
  lemma {:induction false} OddFactor(k: nat, x: nat, u: nat)
    requires u % 2 == 1
    ensures Divides(k, x * u) <==> Divides(k, x)
  {
    if k > 0 {
      ParityOfProduct(x, u);
      if x % 2 == 0 {
        HalfOfProduct(x, u);
        OddFactor(k - 1, x / 2, u);
      }
    }
  }

  lemma ParityOfProduct(x: nat, u: nat)
    requires u % 2 == 1
    ensures x * u % 2 == x % 2
  {
    var h := u / 2;
    assert u == 2 * h + 1;
    assert x * u == 2 * (x * h) + x;
  }

  lemma HalfOfProduct(x: nat, u: nat)
    requires x % 2 == 0
    ensures x * u == 2 * (x / 2 * u) && x * u / 2 == x / 2 * u
  {
  }

  // ---- The closed form ----

  function Power(a: nat, n: nat): nat { if n == 0 then 1 else a * Power(a, n - 1) }

  /** 1 + a + ... + a to the n - 1. */
  function Geometric(a: nat, n: nat): nat { if n == 0 then 0 else a * Geometric(a, n - 1) + 1 }

  /** n steps without reduction. */
  function Linear(a: nat, c: nat, x: nat, n: nat): nat { if n == 0 then x else a * Linear(a, c, x, n - 1) + c }

  /** How far the first step moves x, without reduction. */
  function Stride(a: nat, c: nat, x: nat): nat
    requires a >= 1
  {
    (a - 1) * x + c
  }

  lemma {:induction false} LinearClosed(a: nat, c: nat, x: nat, n: nat)
    requires a >= 1
    ensures Linear(a, c, x, n) == x + Geometric(a, n) * Stride(a, c, x)
  {
    if n > 0 {
      LinearClosed(a, c, x, n - 1);
      FirstStride(a, c, x);
      Telescope(a, x, Geometric(a, n - 1), Stride(a, c, x), c);
    }
  }

  lemma FirstStride(a: nat, c: nat, x: nat)
    requires a >= 1
    ensures a * x + c == x + Stride(a, c, x)
  {
  }

  lemma Telescope(a: nat, x: nat, s: nat, t: nat, c: nat)
    requires a * x + c == x + t
    ensures a * (x + s * t) + c == x + (a * s + 1) * t
  {
  }

  lemma StepOfRemainder(a: nat, c: nat, m: nat, y: nat)
    requires m > 0
    ensures (a * (y % m) + c) % m == (a * y + c) % m
  {
    var q, r := y / m, y % m;
    var z := a * r + c;
    assert a * y + c == m * (a * q + z / m) + z % m by {
      assert y == m * q + r && z == m * (z / m) + z % m;
      assert a * (m * q + r) == m * (a * q) + a * r;
      assert m * (a * q + z / m) == m * (a * q) + m * (z / m);
    }
    Bits.ModUnique(a * y + c, m, a * q + z / m, z % m);
  }

  lemma {:induction false} StepsAreLinear(a: nat, c: nat, k: nat, x: nat, n: nat)
    requires x < Bits.Pow2(k)
    ensures Steps(a, c, k, x, n) == Linear(a, c, x, n) % Bits.Pow2(k)
  {
    if n == 0 {
      Bits.ModUnique(x, Bits.Pow2(k), 0, x);
    } else {
      StepsAreLinear(a, c, k, x, n - 1);
      StepOfRemainder(a, c, Bits.Pow2(k), Linear(a, c, x, n - 1));
    }
  }

  lemma {:induction false} GeometricAdd(a: nat, i: nat, j: nat)
    ensures Geometric(a, i + j) == Geometric(a, i) + Power(a, i) * Geometric(a, j)
  {
    if i > 0 {
      GeometricAdd(a, i - 1, j);
      var s, p, g := Geometric(a, i - 1), Power(a, i - 1), Geometric(a, j);
      Regroup(a, s, p, g);
    }
  }

  lemma Regroup(a: nat, s: nat, p: nat, g: nat)
    ensures a * (s + p * g) + 1 == (a * s + 1) + (a * p) * g
  {
  }

  lemma {:induction false} PowerModFour(a: nat, n: nat)
    requires a % 4 == 1
    ensures Power(a, n) % 4 == 1
  {
    if n > 0 {
      PowerModFour(a, n - 1);
      ProductModFour(a, Power(a, n - 1));
    }
  }

  lemma ProductModFour(a: nat, p: nat)
    requires a % 4 == 1 && p % 4 == 1
    ensures a * p % 4 == 1
  {
    var q := a / 4;
    assert a * p == 4 * (q * p) + p by { assert a == 4 * q + 1; }
  }

  lemma {:induction false} GeometricParity(a: nat, n: nat)
    requires a % 2 == 1
    ensures Geometric(a, n) % 2 == n % 2
  {
    if n > 0 {
      GeometricParity(a, n - 1);
      NextParity(a, Geometric(a, n - 1), n - 1);
    }
  }

  lemma NextParity(a: nat, g: nat, n: nat)
    requires a % 2 == 1 && g % 2 == n % 2
    ensures (a * g + 1) % 2 == (n + 1) % 2
  {
    ParityOfProduct(g, a);
    assert a * g == g * a;
  }

  /** The sum is divisible by exactly the powers of two that divide the number of its terms. */
  lemma {:induction false} GeometricDivides(a: nat, k: nat, n: nat)
    requires a % 4 == 1
    ensures Divides(k, Geometric(a, n)) <==> Divides(k, n)
  {
    GeometricParity(a, n);
    if k > 0 && n % 2 == 0 {
      var u := GeometricDouble(a, n / 2);
      GeometricDivides(a, k - 1, n / 2);
      DividesDouble(k, Geometric(a, n / 2), u);
    }
  }

  lemma DividesDouble(k: nat, s: nat, u: nat)
    requires k > 0 && u % 2 == 1
    ensures Divides(k, 2 * (s * u)) <==> Divides(k - 1, s)
  {
    OddFactor(k - 1, s, u);
  }

  /** Doubling the number of terms doubles the sum, up to an odd factor. */
  lemma GeometricDouble(a: nat, m: nat) returns (u: nat)
    requires a % 4 == 1
    ensures u % 2 == 1 && Geometric(a, 2 * m) == 2 * (Geometric(a, m) * u)
  {
    GeometricAdd(a, m, m);
    PowerModFour(a, m);
    u := OddHalf(Power(a, m));
    Factor(Geometric(a, m), Power(a, m), u);
    assert m + m == 2 * m;
  }

  lemma OddHalf(p: nat) returns (u: nat)
    requires p % 4 == 1
    ensures u % 2 == 1 && p + 1 == 2 * u
  {
    u := 2 * (p / 4) + 1;
  }

  lemma Factor(s: nat, p: nat, u: nat)
    requires p + 1 == 2 * u
    ensures s + p * s == 2 * (s * u)
  {
  }

  // ---- The period ----

  lemma StepsMove(a: nat, c: nat, k: nat, x: nat, n: nat)
    requires a >= 1 && x < Bits.Pow2(k)
    ensures Steps(a, c, k, x, n) == (x + Geometric(a, n) * Stride(a, c, x)) % Bits.Pow2(k)
  {
    StepsAreLinear(a, c, k, x, n);
    LinearClosed(a, c, x, n);
  }

  /** n steps lead back to the start exactly when 2 to the k divides n. */
  lemma ReturnsExactly(a: nat, c: nat, k: nat, x: nat, n: nat)
    requires a % 4 == 1 && c % 2 == 1 && x < Bits.Pow2(k)
    ensures Steps(a, c, k, x, n) == x <==> n % Bits.Pow2(k) == 0
  {
    StepsMove(a, c, k, x, n);
    OddStride(a, c, x);
    GeometricDivides(a, k, n);
    MovedByMultiple(k, x, Geometric(a, n), Stride(a, c, x));
    DividesIsMod(k, n);
  }

  lemma MovedByMultiple(k: nat, x: nat, g: nat, t: nat)
    requires x < Bits.Pow2(k) && t % 2 == 1
    ensures (x + g * t) % Bits.Pow2(k) == x <==> Divides(k, g)
  {
    SameRemainder(x, g * t, Bits.Pow2(k));
    OddFactor(k, g, t);
    DividesIsMod(k, g * t);
  }

  lemma OddStride(a: nat, c: nat, x: nat)
    requires a % 2 == 1 && c % 2 == 1
    ensures Stride(a, c, x) % 2 == 1
  {
    HalfOfProduct(a - 1, x);
  }

  lemma SameRemainder(x: nat, d: nat, m: nat)
    requires x < m
    ensures (x + d) % m == x <==> d % m == 0
  {
    var q, r := d / m, d % m;
    assert d == m * q + r;
    if x + r < m {
      Bits.ModUnique(x + d, m, q, x + r);
    } else {
      assert x + d == m * (q + 1) + (x + r - m);
      Bits.ModUnique(x + d, m, q + 1, x + r - m);
    }
  }

  lemma {:induction false} StepsAdd(a: nat, c: nat, k: nat, x: nat, i: nat, j: nat)
    ensures Steps(a, c, k, x, i + j) == Steps(a, c, k, Steps(a, c, k, x, i), j)
  {
    if j > 0 { StepsAdd(a, c, k, x, i, j - 1); }
  }

  /** No seed comes twice in a period. */
  lemma Distinct(a: nat, c: nat, k: nat, x: nat, i: nat, j: nat)
    requires a % 4 == 1 && c % 2 == 1 && x < Bits.Pow2(k) && i < j < Bits.Pow2(k)
    ensures Steps(a, c, k, x, i) != Steps(a, c, k, x, j)
  {
    StepsAdd(a, c, k, x, i, j - i);
    ReturnsExactly(a, c, k, Steps(a, c, k, x, i), j - i);
    Bits.ModUnique(j - i, Bits.Pow2(k), 0, j - i);
  }

  ghost function Visited(g: nat -> nat, n: nat): set<nat> {
    if n == 0 then {} else Visited(g, n - 1) + {g(n - 1)}
  }

  ghost function Below(n: nat): (s: set<nat>) {
    if n == 0 then {} else Below(n - 1) + {n - 1}
  }

  lemma {:induction false} BelowMembers(n: nat)
    ensures forall y: nat :: y in Below(n) <==> y < n
  {
    if n > 0 { BelowMembers(n - 1); }
  }

  lemma {:induction false} BelowCount(n: nat)
    ensures |Below(n)| == n
  {
    if n > 0 {
      BelowCount(n - 1);
      BelowMembers(n - 1);
      AddOne(Below(n - 1), n - 1);
    }
  }

  lemma AddOne(s: set<nat>, x: nat)
    requires x !in s
    ensures |s + {x}| == |s| + 1
  {
  }

  lemma {:induction false} VisitedAt(g: nat -> nat, n: nat, y: nat)
    requires y in Visited(g, n)
    ensures exists i: nat :: i < n && g(i) == y
  {
    if y != g(n - 1) { VisitedAt(g, n - 1, y); }
  }

  lemma {:induction false} NotVisited(g: nat -> nat, n: nat, y: nat)
    requires forall i: nat | i < n :: g(i) != y
    ensures y !in Visited(g, n)
  {
    if n > 0 { NotVisited(g, n - 1, y); }
  }

  lemma {:induction false} VisitedCount(g: nat -> nat, n: nat)
    requires forall i: nat, j: nat | i < j < n :: g(i) != g(j)
    ensures |Visited(g, n)| == n
  {
    if n > 0 {
      VisitedCount(g, n - 1);
      NotVisited(g, n - 1, g(n - 1));
      AddOne(Visited(g, n - 1), g(n - 1));
    }
  }

  lemma {:induction false} VisitedBelow(g: nat -> nat, n: nat, m: nat)
    requires forall i: nat | i < n :: g(i) < m
    ensures Visited(g, n) <= Below(m)
  {
    BelowMembers(m);
    if n > 0 { VisitedBelow(g, n - 1, m); }
  }

  lemma SubsetOfSameSize(s: set<nat>, t: set<nat>)
    requires s <= t && |s| == |t|
    ensures s == t
  {
    assert t == s + (t - s) && s * (t - s) == {};
    assert |t - s| == 0;
  }

  /** m different numbers below m are all of them. */
  lemma Onto(g: nat -> nat, m: nat, y: nat)
    requires (forall i: nat | i < m :: g(i) < m) && (forall i: nat, j: nat | i < j < m :: g(i) != g(j)) && y < m
    ensures exists i: nat :: i < m && g(i) == y
  {
    VisitedCount(g, m);
    VisitedBelow(g, m, m);
    BelowCount(m);
    BelowMembers(m);
    SubsetOfSameSize(Visited(g, m), Below(m));
    VisitedAt(g, m, y);
  }

  /** Every seed comes exactly once in a period. */
  lemma FullPeriod(a: nat, c: nat, k: nat, x: nat, y: nat)
    requires a % 4 == 1 && c % 2 == 1 && x < Bits.Pow2(k) && y < Bits.Pow2(k)
    ensures exists i: nat :: i < Bits.Pow2(k) && Steps(a, c, k, x, i) == y
    ensures forall i: nat, j: nat | i < j < Bits.Pow2(k) && Steps(a, c, k, x, i) == y :: Steps(a, c, k, x, j) != y
  {
    var m, g := Bits.Pow2(k), (i: nat) => Steps(a, c, k, x, i);
    forall i: nat, j: nat | i < j < m ensures g(i) != g(j) { Distinct(a, c, k, x, i, j); }
    Onto(g, m, y);
    var i: nat :| i < m && g(i) == y;
    assert Steps(a, c, k, x, i) == y;
    forall i: nat, j: nat | i < j < m && Steps(a, c, k, x, i) == y ensures Steps(a, c, k, x, j) != y {
      Distinct(a, c, k, x, i, j);
    }
  }

  /** The step is a bijection: the rest of the period undoes it. */
  lemma StepIsBijection(a: nat, c: nat, k: nat, x: nat, y: nat)
    requires a % 4 == 1 && c % 2 == 1 && x < Bits.Pow2(k) && y < Bits.Pow2(k)
    ensures Step(a, c, k, x) == Step(a, c, k, y) ==> x == y
    ensures Step(a, c, k, Steps(a, c, k, x, Bits.Pow2(k) - 1)) == x
  {
    WholePeriod(a, c, k, x);
    WholePeriod(a, c, k, y);
  }

  lemma WholePeriod(a: nat, c: nat, k: nat, x: nat)
    requires a % 4 == 1 && c % 2 == 1 && x < Bits.Pow2(k)
    ensures Steps(a, c, k, x, Bits.Pow2(k)) == x
    ensures Steps(a, c, k, Step(a, c, k, x), Bits.Pow2(k) - 1) == x
  {
    var m := Bits.Pow2(k);
    Bits.ModUnique(m, m, 1, 0);
    ReturnsExactly(a, c, k, x, m);
    assert Steps(a, c, k, x, 1) == Step(a, c, k, x) by { assert Steps(a, c, k, x, 0) == x; }
    StepsAdd(a, c, k, x, 1, m - 1);
  }

  // ---- The generator ----

  /** A result of C arithmetic reduced to a signed word of w bits. */
  function Signed(w: nat, v: int): (r: int)
    requires w > 0
    ensures r % Bits.Pow2(w) == v % Bits.Pow2(w)
  {
    var m := Bits.Pow2(w);
    RemainderOfDifference(v, m);
    if v % m < Bits.Pow2(w - 1) then v % m else v % m - m
  }

  lemma RemainderOfDifference(v: int, m: nat)
    requires m > 0
    ensures v % m % m == v % m && (v % m - m) % m == v % m
  {
  }

  lemma IntModUnique(v: int, m: nat, q: int, r: nat)
    requires r < m && v == m * q + r
    ensures v % m == r
  {
    assert m * (q - v / m) == v % m - r by { assert m * (q - v / m) == m * q - m * (v / m); }
    if q != v / m {
      FarFromZero(m, q - v / m);
      assert false;
    }
  }

  lemma FarFromZero(m: nat, d: int)
    requires d != 0
    ensures m * d >= m || m * d <= 0 - m
  {
  }

  /** What masking keeps of a signed word: its unsigned reading, and-ed with the mask. */
  function Masked(w: nat, k: nat, v: int): nat {
    Bits.And(v % Bits.Pow2(w), Bits.Pow2(k) - 1)
  }

  lemma MaskedIsMod(w: nat, k: nat, v: int)
    requires k <= w
    ensures Masked(w, k, v) == v % Bits.Pow2(k)
  {
    Bits.AndMask(v % Bits.Pow2(w), k);
    Bits.Pow2Add(k, w - k);
    ModOfMultiple(v, Bits.Pow2(k), Bits.Pow2(w - k));
  }

  lemma ModOfMultiple(v: int, m: nat, f: nat)
    requires m > 0 && f > 0
    ensures m * f > 0 && v % (m * f) % m == v % m
  {
    var q, r := v / (m * f), v % (m * f);
    assert m * (f * q + r / m) + r % m == v by {
      assert m * (f * q + r / m) == m * f * q + m * (r / m);
    }
    IntModUnique(v, m, f * q + r / m, r % m);
  }

  /** The multiplication, the addition and the masking, each in signed words. */
  function InWords(w: nat, k: nat, a: nat, c: nat, seed: int): nat
    requires w > 0
  {
    Masked(w, k, Signed(w, Signed(w, seed * a) + c))
  }

  /** Multiplying and adding in 64-bit words, both of which overflow, loses nothing the mask keeps. */
  lemma OverflowIsHarmless(w: nat, k: nat, a: nat, c: nat, seed: int)
    requires 0 < w && k <= w
    ensures InWords(w, k, a, c, seed) == Step(a, c, k, seed % Bits.Pow2(k))
  {
    var m, n := Bits.Pow2(w), Bits.Pow2(k);
    var p := Signed(w, seed * a);
    MaskedIsMod(w, k, Signed(w, p + c));
    Narrow(w, k, Signed(w, p + c), p + c);
    Narrow(w, k, p, seed * a);
    SameSum(p, seed * a, c, n);
    SameStep(seed, a, c, n);
  }

  lemma Narrow(w: nat, k: nat, x: int, y: int)
    requires k <= w && x % Bits.Pow2(w) == y % Bits.Pow2(w)
    ensures x % Bits.Pow2(k) == y % Bits.Pow2(k)
  {
    Bits.Pow2Add(k, w - k);
    ModOfMultiple(x, Bits.Pow2(k), Bits.Pow2(w - k));
    ModOfMultiple(y, Bits.Pow2(k), Bits.Pow2(w - k));
  }

  lemma SameSum(x: int, y: int, c: nat, m: nat)
    requires m > 0 && x % m == y % m
    ensures (x + c) % m == (y + c) % m
  {
    var q, z := x / m - y / m, y + c;
    assert m * (q + z / m) + z % m == x + c by {
      assert m * (q + z / m) == m * (x / m) - m * (y / m) + m * (z / m);
    }
    IntModUnique(x + c, m, q + z / m, z % m);
  }

  lemma Spread(m: int, q: int, r: int, a: int)
    ensures (m * q + r) * a == m * (a * q) + a * r
  {
  }

  lemma Join(m: int, x: int, y: int)
    ensures m * (x + y) == m * x + m * y
  {
  }

  lemma SameStep(seed: int, a: nat, c: nat, m: nat)
    requires m > 0
    ensures (seed * a + c) % m == (a * (seed % m) + c) % m
  {
    var q, r := seed / m, seed % m;
    var z := a * r + c;
    Spread(m, q, r, a);
    assert seed * a == m * (a * q) + a * r by { assert seed == m * q + r; }
    Join(m, a * q, z / m);
    IntModUnique(seed * a + c, m, a * q + z / m, z % m);
  }

  /** The word of w bits that holds the first n of the seed's size bits. */
  function Leading(size: nat, w: nat, seed: nat, n: int): int
    requires n <= size && 0 < w
  {
    Signed(w, Quotient(seed, Bits.Pow2(size - n)))
  }

  /** The word an int holds of the seed's leading bits; C leaves shift counts outside 0 to 63 undefined. */
  function TopBits(seed: nat, bits: int): int
    requires -15 <= bits <= 48
  {
    Leading(48, 32, seed, bits)
  }

  /** q is x shifted right by s places. */
  ghost predicate ShiftedRight(x: nat, s: nat, q: nat) {
    Product(q, Bits.Pow2(s)) <= x < Product(q + 1, Bits.Pow2(s))
  }

  function Product(a: nat, b: nat): nat { a * b }

  function Quotient(a: nat, b: nat): nat
    requires b > 0
  {
    a / b
  }

  lemma QuotientBounds(x: nat, m: nat)
    requires m > 0
    ensures Product(Quotient(x, m), m) <= x < Product(Quotient(x, m) + 1, m)
  {
  }

  lemma QuotientShifts(x: nat, s: nat)
    ensures ShiftedRight(x, s, Quotient(x, Bits.Pow2(s)))
  {
    QuotientBounds(x, Bits.Pow2(s));
  }

  lemma {:induction false} QuotientFits(x: nat, s: nat, n: nat)
    requires x < Bits.Pow2(s + n)
    ensures Quotient(x, Bits.Pow2(s)) < Bits.Pow2(n)
  {
    var q, m := Quotient(x, Bits.Pow2(s)), Bits.Pow2(s);
    QuotientShifts(x, s);
    Bits.Pow2Add(s, n);
    if q >= Bits.Pow2(n) { ProductMonotone(Bits.Pow2(n), q, m); }
  }

  lemma ProductMonotone(a: nat, b: nat, c: nat)
    requires a <= b
    ensures Product(a, c) <= Product(b, c)
  {
  }

  /** A number of at most w bits, read as a signed word of w bits. */
  lemma SignedReads(w: nat, q: nat, n: nat)
    requires 0 < w && n <= w && q < Bits.Pow2(n)
    ensures Signed(w, q) == if n == w && q >= Bits.Pow2(w - 1) then q - Bits.Pow2(w) else q
  {
    if n < w {
      Bits.Pow2Monotone(w - 1, n);
      Bits.Pow2Monotone(n, w);
    }
    IntModUnique(q, Bits.Pow2(w), 0, q);
  }

  /** The n leading ones of size bits, as a signed word of w bits. */
  lemma LeadingMeans(size: nat, w: nat, x: nat, n: nat) returns (q: nat)
    requires x < Bits.Pow2(size) && 0 < w && n <= w && n <= size
    ensures q < Bits.Pow2(n) && ShiftedRight(x, size - n, q)
    ensures Leading(size, w, x, n) == if n == w && q >= Bits.Pow2(w - 1) then q - Bits.Pow2(w) else q
  {
    var s := size - n;
    assert s + n == size;
    q := Quotient(x, Bits.Pow2(s));
    QuotientShifts(x, s);
    QuotientFits(x, s, n);
    SignedReads(w, q, n);
  }

  /**
   * What the leading bits are: for up to 31 of them the number they make, for 32 that number read as a
   * signed word.
   */
  lemma TopBitsMean(seed: nat, bits: nat) returns (q: nat)
    requires seed < Bits.Pow2(48) && bits <= 32
    ensures q < Bits.Pow2(bits) && ShiftedRight(seed, 48 - bits, q)
    ensures TopBits(seed, bits) == if bits == 32 && q >= Bits.Pow2(31) then q - Bits.Pow2(32) else q
  {
    q := LeadingMeans(48, 32, seed, bits);
  }

  lemma Pow2Of48()
    ensures Bits.Pow2(48) == 0x1_0000_0000_0000
  {
    Pow2Twice(6, 64);
    Pow2Twice(12, 0x1000);
    Pow2Twice(24, 0x100_0000);
  }

  lemma Pow2Twice(n: nat, x: nat)
    requires Bits.Pow2(n) == x
    ensures Bits.Pow2(n + n) == x * x
  {
    Bits.Pow2Add(n, n);
  }

  /** The step with its numbers written out. */
  lemma StepWritten(x: nat)
    ensures Step(MULTIPLIER, INCREMENT, 48, x) == (0x5DEECE66D * x + 0xB) % 0x1_0000_0000_0000
  {
    Pow2Of48();
  }

  function NextSeed(s: int): nat {
    InWords(64, 48, MULTIPLIER, INCREMENT, s)
  }

  lemma NextSeedIsStep(s: int)
    ensures NextSeed(s) == Step(MULTIPLIER, INCREMENT, 48, s % Bits.Pow2(48))
  {
    OverflowIsHarmless(64, 48, MULTIPLIER, INCREMENT, s);
  }

  class Random {
    var seed: int

    constructor ()
      ensures seed == 1182736490827
    {
      seed := 1182736490827;
    }

    /** The seed modulo 2 to the 48 makes one step. */
    method RandomBits(bits: int) returns (r: int)
      requires -15 <= bits <= 48
      modifies this
      ensures seed == Step(MULTIPLIER, INCREMENT, 48, old(seed) % Bits.Pow2(48))
      ensures r == TopBits(seed, bits)
    {
      NextSeedIsStep(seed);
      seed := NextSeed(seed);
      r := TopBits(seed, bits);
    }

    method SetSeed(s: int)
      modifies this
      ensures seed == Step(MULTIPLIER, INCREMENT, 48, s % Bits.Pow2(48))
    {
      NextSeedIsStep(s);
      seed := NextSeed(s);
    }

  }

  /** The generator's seed comes back after exactly 2 to the 48 calls, and passes every other value on the way. */
  lemma Period(x: nat, y: nat, n: nat)
    requires x < Bits.Pow2(48) && y < Bits.Pow2(48)
    ensures Steps(MULTIPLIER, INCREMENT, 48, x, n) == x <==> n % Bits.Pow2(48) == 0
    ensures exists i: nat :: i < Bits.Pow2(48) && Steps(MULTIPLIER, INCREMENT, 48, x, i) == y
  {
    ReturnsExactly(MULTIPLIER, INCREMENT, 48, x, n);
    FullPeriod(MULTIPLIER, INCREMENT, 48, x, y);
  }

  /** Setting two seeds gives the same sequence exactly when they agree in their low 48 bits. */
  lemma SeedsDiffer(s: int, t: int)
    ensures Step(MULTIPLIER, INCREMENT, 48, s % Bits.Pow2(48)) == Step(MULTIPLIER, INCREMENT, 48, t % Bits.Pow2(48))
       <==> s % Bits.Pow2(48) == t % Bits.Pow2(48)
  {
    StepIsBijection(MULTIPLIER, INCREMENT, 48, s % Bits.Pow2(48), t % Bits.Pow2(48));
  }
}
