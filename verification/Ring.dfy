/** Commutative rings given by their operations, with powers and finite sums. */
module Rings {

  datatype Ring<!T(!new)> = Ring(zero: T, one: T, add: (T, T) -> T, neg: T -> T, mul: (T, T) -> T) {

    ghost predicate LawsAt(a: T, b: T, c: T) {
      && add(a, b) == add(b, a)
      && add(add(a, b), c) == add(a, add(b, c))
      && add(a, zero) == a
      && add(a, neg(a)) == zero
      && mul(a, b) == mul(b, a)
      && mul(mul(a, b), c) == mul(a, mul(b, c))
      && mul(a, one) == a
      && mul(a, add(b, c)) == add(mul(a, b), mul(a, c))
    }

    /** The commutative-ring laws hold for all elements. */
    ghost predicate Laws() {
      forall a, b, c :: LawsAt(a, b, c)
    }

    function Pow(w: T, n: nat): T {
      if n == 0 then one else mul(w, Pow(w, n - 1))
    }

    /** f(0) + ... + f(n - 1) */
    function Sum(n: nat, f: nat -> T): T {
      if n == 0 then zero else add(Sum(n - 1, f), f(n - 1))
    }

    /** n as an element of the ring. */
    function OfNat(n: nat): T {
      if n == 0 then zero else add(OfNat(n - 1), one)
    }
  }

  lemma AddLaws<T(!new)>(r: Ring<T>, a: T, b: T, c: T)
    requires r.Laws()
    ensures r.add(a, b) == r.add(b, a)
    ensures r.add(r.add(a, b), c) == r.add(a, r.add(b, c))
    ensures r.add(a, r.zero) == a && r.add(r.zero, a) == a
    ensures r.add(a, r.neg(a)) == r.zero
  {
    assert r.LawsAt(a, b, c);
    assert r.LawsAt(r.zero, a, a);
  }

  lemma MulLaws<T(!new)>(r: Ring<T>, a: T, b: T, c: T)
    requires r.Laws()
    ensures r.mul(a, b) == r.mul(b, a)
    ensures r.mul(r.mul(a, b), c) == r.mul(a, r.mul(b, c))
    ensures r.mul(a, r.one) == a && r.mul(r.one, a) == a
    ensures r.mul(a, r.add(b, c)) == r.add(r.mul(a, b), r.mul(a, c))
    ensures r.mul(r.add(b, c), a) == r.add(r.mul(b, a), r.mul(c, a))
  {
    assert r.LawsAt(a, b, c);
    assert r.LawsAt(r.one, a, a);
    assert r.LawsAt(b, a, a) && r.LawsAt(c, a, a);
    assert r.LawsAt(r.add(b, c), a, a);
  }

  lemma AddInterchange<T(!new)>(r: Ring<T>, a: T, b: T, c: T, d: T)
    requires r.Laws()
    ensures r.add(r.add(a, b), r.add(c, d)) == r.add(r.add(a, c), r.add(b, d))
  {
    AddLaws(r, a, b, r.add(c, d));
    AddLaws(r, b, c, d);
    AddLaws(r, c, b, d);
    AddLaws(r, a, c, r.add(b, d));
  }

  lemma MulInterchange<T(!new)>(r: Ring<T>, a: T, b: T, c: T, d: T)
    requires r.Laws()
    ensures r.mul(r.mul(a, b), r.mul(c, d)) == r.mul(r.mul(a, c), r.mul(b, d))
  {
    MulLaws(r, a, b, r.mul(c, d));
    MulLaws(r, b, c, d);
    MulLaws(r, c, b, d);
    MulLaws(r, a, c, r.mul(b, d));
  }

  lemma MulZero<T(!new)>(r: Ring<T>, a: T)
    requires r.Laws()
    ensures r.mul(a, r.zero) == r.zero && r.mul(r.zero, a) == r.zero
  {
    var p := r.mul(a, r.zero);
    MulLaws(r, a, r.zero, r.zero);
    AddLaws(r, r.zero, r.zero, r.zero);
    assert p == r.add(p, p);
    AddLaws(r, p, p, r.neg(p));
  }

  lemma MulNeg<T(!new)>(r: Ring<T>, a: T, b: T)
    requires r.Laws()
    ensures r.mul(r.neg(a), b) == r.neg(r.mul(a, b))
    ensures r.mul(b, r.neg(a)) == r.neg(r.mul(a, b))
  {
    var p, q := r.mul(a, b), r.mul(r.neg(a), b);
    MulLaws(r, b, a, r.neg(a));
    MulLaws(r, b, r.neg(a), a);
    AddLaws(r, a, r.neg(a), a);
    MulZero(r, b);
    assert r.add(p, q) == r.zero;
    AddLaws(r, q, p, r.neg(p));
    AddLaws(r, p, q, r.neg(p));
    AddLaws(r, r.neg(p), p, q);
  }

  lemma {:induction false} PowOne<T(!new)>(r: Ring<T>, n: nat)
    requires r.Laws()
    ensures r.Pow(r.one, n) == r.one
  {
    if n != 0 { PowOne(r, n - 1); MulLaws(r, r.one, r.one, r.one); }
  }

  lemma {:induction false} PowAdd<T(!new)>(r: Ring<T>, w: T, a: nat, b: nat)
    requires r.Laws()
    ensures r.Pow(w, a + b) == r.mul(r.Pow(w, a), r.Pow(w, b))
  {
    MulLaws(r, r.Pow(w, b), r.one, r.one);
    if a != 0 {
      PowAdd(r, w, a - 1, b);
      MulLaws(r, w, r.Pow(w, a - 1), r.Pow(w, b));
    }
  }

  lemma {:induction false} PowPow<T(!new)>(r: Ring<T>, w: T, a: nat, b: nat)
    requires r.Laws()
    ensures r.Pow(r.Pow(w, a), b) == r.Pow(w, a * b)
  {
    if b != 0 {
      PowPow(r, w, a, b - 1);
      PowAdd(r, w, a, a * (b - 1));
      assert a + a * (b - 1) == a * b;
    }
  }

  lemma {:induction false} PowProduct<T(!new)>(r: Ring<T>, u: T, v: T, n: nat)
    requires r.Laws()
    ensures r.Pow(r.mul(u, v), n) == r.mul(r.Pow(u, n), r.Pow(v, n))
  {
    if n == 0 {
      MulLaws(r, r.one, r.one, r.one);
    } else {
      PowProduct(r, u, v, n - 1);
      MulInterchange(r, u, v, r.Pow(u, n - 1), r.Pow(v, n - 1));
    }
  }

  lemma {:induction false} SumEqual<T(!new)>(r: Ring<T>, n: nat, f: nat -> T, g: nat -> T)
    requires forall i: nat | i < n :: f(i) == g(i)
    ensures r.Sum(n, f) == r.Sum(n, g)
  {
    if n != 0 { SumEqual(r, n - 1, f, g); }
  }

  lemma {:induction false} SumZero<T(!new)>(r: Ring<T>, n: nat, f: nat -> T)
    requires r.Laws()
    requires forall i: nat | i < n :: f(i) == r.zero
    ensures r.Sum(n, f) == r.zero
  {
    if n != 0 { SumZero(r, n - 1, f); AddLaws(r, r.zero, r.zero, r.zero); }
  }

  lemma {:induction false} SumConst<T(!new)>(r: Ring<T>, n: nat, f: nat -> T)
    requires forall i: nat | i < n :: f(i) == r.one
    ensures r.Sum(n, f) == r.OfNat(n)
  {
    if n != 0 { SumConst(r, n - 1, f); }
  }

  lemma {:induction false} SumMul<T(!new)>(r: Ring<T>, n: nat, c: T, f: nat -> T, g: nat -> T)
    requires r.Laws()
    requires forall i: nat | i < n :: g(i) == r.mul(c, f(i))
    ensures r.Sum(n, g) == r.mul(c, r.Sum(n, f))
  {
    if n == 0 {
      MulZero(r, c);
    } else {
      SumMul(r, n - 1, c, f, g);
      MulLaws(r, c, r.Sum(n - 1, f), f(n - 1));
    }
  }

  lemma {:induction false} SumConcat<T(!new)>(r: Ring<T>, m: nat, n: nat, f: nat -> T, g: nat -> T)
    requires r.Laws()
    requires forall i: nat | i < n :: g(i) == f(m + i)
    ensures r.Sum(m + n, f) == r.add(r.Sum(m, f), r.Sum(n, g))
  {
    if n == 0 {
      AddLaws(r, r.Sum(m, f), r.zero, r.zero);
    } else {
      SumConcat(r, m, n - 1, f, g);
      AddLaws(r, r.Sum(m, f), r.Sum(n - 1, g), g(n - 1));
    }
  }

  lemma {:induction false} SumAdd<T(!new)>(r: Ring<T>, n: nat, f: nat -> T, g: nat -> T, h: nat -> T)
    requires r.Laws()
    requires forall i: nat | i < n :: h(i) == r.add(f(i), g(i))
    ensures r.Sum(n, h) == r.add(r.Sum(n, f), r.Sum(n, g))
  {
    if n == 0 {
      AddLaws(r, r.zero, r.zero, r.zero);
    } else {
      SumAdd(r, n - 1, f, g, h);
      AddInterchange(r, r.Sum(n - 1, f), r.Sum(n - 1, g), f(n - 1), g(n - 1));
    }
  }

  /** Splits a sum of even length into its even-indexed and odd-indexed terms. */
  lemma {:induction false} SumEvenOdd<T(!new)>(r: Ring<T>, n: nat, f: nat -> T, even: nat -> T, odd: nat -> T)
    requires r.Laws()
    requires forall i: nat | i < n :: even(i) == f(2 * i) && odd(i) == f(2 * i + 1)
    ensures r.Sum(2 * n, f) == r.add(r.Sum(n, even), r.Sum(n, odd))
  {
    if n == 0 {
      AddLaws(r, r.zero, r.zero, r.zero);
    } else {
      SumEvenOdd(r, n - 1, f, even, odd);
      var s, p, q := r.Sum(2 * n - 2, f), f(2 * n - 2), f(2 * n - 1);
      assert r.Sum(2 * n - 1, f) == r.add(s, p);
      AddLaws(r, s, p, q);
      assert even(n - 1) == p && odd(n - 1) == q;
      AddInterchange(r, r.Sum(n - 1, even), r.Sum(n - 1, odd), p, q);
    }
  }

  function Row<T>(f: (nat, nat) -> T, i: nat): nat -> T { (j: nat) => f(i, j) }

  function Col<T>(f: (nat, nat) -> T, j: nat): nat -> T { (i: nat) => f(i, j) }

  /** The order of a double summation does not matter. */
  lemma {:induction false} SumSwap<T(!new)>(r: Ring<T>, m: nat, n: nat, f: (nat, nat) -> T, rows: nat -> T,
                                     cols: nat -> T)
    requires r.Laws()
    requires forall i: nat | i < m :: rows(i) == r.Sum(n, Row(f, i))
    requires forall j: nat | j < n :: cols(j) == r.Sum(m, Col(f, j))
    ensures r.Sum(m, rows) == r.Sum(n, cols)
  {
    if m == 0 {
      SumZero(r, n, cols);
    } else {
      var before := (j: nat) => r.Sum(m - 1, Col(f, j));
      SumSwap(r, m - 1, n, f, rows, before);
      SumAdd(r, n, before, Row(f, m - 1), cols);
    }
  }

  /** A sum with at most one non-zero term. */
  lemma {:induction false} SumSingle<T(!new)>(r: Ring<T>, n: nat, k: nat, f: nat -> T)
    requires r.Laws()
    requires k < n && forall i: nat | i < n && i != k :: f(i) == r.zero
    ensures r.Sum(n, f) == f(k)
  {
    AddLaws(r, f(k), r.zero, r.zero);
    if k == n - 1 { SumZero(r, n - 1, f); } else { SumSingle(r, n - 1, k, f); }
  }
}
