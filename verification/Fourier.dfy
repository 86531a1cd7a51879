/**
 * The discrete Fourier transform over any commutative ring with roots of unity of
 * every power-of-two order: its decimation-in-time structure, inversion and the
 * convolution theorem. Nothing here is about arrays; Fft.dfy proves the code against it.
 */
module Fourier {
  import opened Bits
  import opened Rings

  ghost predicate SquaresAt<T(!new)>(r: Ring<T>, roots: nat -> T, m: nat) {
    r.mul(roots(m + 1), roots(m + 1)) == roots(m)
  }

  ghost predicate InverseAt<T(!new)>(r: Ring<T>, roots: nat -> T, inverses: nat -> T, m: nat) {
    r.mul(roots(m), inverses(m)) == r.one
  }

  /** roots(m) is a root of unity of order 2^m: roots square down to roots(1) = -1. */
  ghost predicate GoodRoots<T(!new)>(r: Ring<T>, roots: nat -> T) {
    && r.Laws()
    && roots(0) == r.one
    && roots(1) == r.neg(r.one)
    && forall m: nat :: SquaresAt(r, roots, m)
  }

  /** inverses(m) is the multiplicative inverse of roots(m). */
  ghost predicate InverseRoots<T(!new)>(r: Ring<T>, roots: nat -> T, inverses: nat -> T) {
    && GoodRoots(r, roots)
    && GoodRoots(r, inverses)
    && forall m: nat :: InverseAt(r, roots, inverses, m)
  }

  function Term<T(!new)>(r: Ring<T>, s: seq<T>, w: T, k: nat): nat -> T {
    (j: nat) => if j < |s| then r.mul(s[j], r.Pow(w, j * k)) else r.zero
  }

  /** The k-th Fourier coefficient of s: the sum of s[j] * w^(j*k). */
  function DftAt<T(!new)>(r: Ring<T>, s: seq<T>, w: T, k: nat): T {
    r.Sum(|s|, Term(r, s, w, k))
  }

  function Dft<T(!new)>(r: Ring<T>, s: seq<T>, w: T): (t: seq<T>)
    ensures |t| == |s| && forall k | 0 <= k < |s| :: t[k] == DftAt(r, s, w, k)
  {
    seq(|s|, k requires 0 <= k => DftAt(r, s, w, k))
  }

  function Evens<T>(s: seq<T>): seq<T> {
    seq(|s| / 2, i requires 0 <= i < |s| / 2 => s[2 * i])
  }

  function Odds<T>(s: seq<T>): seq<T> {
    seq(|s| / 2, i requires 0 <= i < |s| / 2 => s[2 * i + 1])
  }

  // ---- roots of unity

  lemma {:induction false} RootPowHalf<T(!new)>(r: Ring<T>, roots: nat -> T, m: nat)
    requires GoodRoots(r, roots)
    ensures r.Pow(roots(m + 1), Pow2(m)) == r.neg(r.one)
  {
    var w := roots(m + 1);
    MulLaws(r, w, r.one, r.one);
    if m != 0 {
      RootPowHalf(r, roots, m - 1);
      PowPow(r, w, 2, Pow2(m - 1));
      assert SquaresAt(r, roots, m);
      assert r.Pow(w, 2) == r.mul(w, r.Pow(w, 1)) == roots(m);
    }
  }

  lemma RootPowFull<T(!new)>(r: Ring<T>, roots: nat -> T, m: nat)
    requires GoodRoots(r, roots)
    ensures r.Pow(roots(m), Pow2(m)) == r.one
  {
    if m == 0 {
      PowOne(r, 1);
    } else {
      var w, minus, h := roots(m), r.neg(r.one), Pow2(m - 1);
      RootPowHalf(r, roots, m - 1);
      PowAdd(r, w, h, h);
      MulNeg(r, r.one, minus);
      MulLaws(r, minus, r.one, r.one);
      NegNeg(r, r.one);
    }
  }

  lemma NegNeg<T(!new)>(r: Ring<T>, a: T)
    requires r.Laws()
    ensures r.neg(r.neg(a)) == a
  {
    var b, c := r.neg(a), r.neg(r.neg(a));
    AddLaws(r, a, b, c);
    AddLaws(r, b, c, a);
    AddLaws(r, c, r.zero, a);
  }

  /** w^(e+n*j) = w^e whenever w^n = 1. */
  lemma PowPeriodic<T(!new)>(r: Ring<T>, w: T, e: nat, n: nat, j: nat)
    requires r.Laws() && r.Pow(w, n) == r.one
    ensures 0 <= n * j && r.Pow(w, e + n * j) == r.Pow(w, e)
  {
    MulMono(0, n, j);
    PowAdd(r, w, e, n * j);
    PowPow(r, w, n, j);
    PowOne(r, j);
    MulLaws(r, r.Pow(w, e), r.one, r.one);
  }

  // ---- the butterfly

  lemma PowSquare<T(!new)>(r: Ring<T>, w: T, e: nat)
    requires r.Laws()
    ensures r.Pow(r.mul(w, w), e) == r.Pow(w, 2 * e)
  {
    assert r.Pow(w, 2) == r.mul(w, r.Pow(w, 1));
    MulLaws(r, w, r.one, w);
    PowPow(r, w, 2, e);
  }

  lemma EvenTerm<T(!new)>(r: Ring<T>, s: seq<T>, w: T, k: nat, i: nat)
    requires r.Laws() && |s| % 2 == 0 && i < |s| / 2
    ensures Term(r, Evens(s), r.mul(w, w), k)(i) == Term(r, s, w, k)(2 * i)
  {
    var e := TwiceTimes(i, k);
    TermAt(r, Evens(s), r.mul(w, w), k, i, e);
    TermAt(r, s, w, k, 2 * i, 2 * e);
    PowSquare(r, w, e);
  }

  lemma OddTerm<T(!new)>(r: Ring<T>, s: seq<T>, w: T, k: nat, i: nat)
    requires r.Laws() && |s| % 2 == 0 && i < |s| / 2
    ensures r.mul(r.Pow(w, k), Term(r, Odds(s), r.mul(w, w), k)(i)) == Term(r, s, w, k)(2 * i + 1)
  {
    var e := TwiceTimes(i, k);
    TermAt(r, Odds(s), r.mul(w, w), k, i, e);
    TermAt(r, s, w, k, 2 * i + 1, k + 2 * e);
    TwistPower(r, w, k, e, s[2 * i + 1]);
  }

  lemma TermAt<T(!new)>(r: Ring<T>, s: seq<T>, w: T, k: nat, j: nat, e: nat)
    requires j < |s| && e == Times(j, k)
    ensures Term(r, s, w, k)(j) == r.mul(s[j], r.Pow(w, e))
  {
  }

  lemma TwiceTimes(i: nat, k: nat) returns (e: nat)
    ensures e == Times(i, k) && 2 * e == Times(2 * i, k) && k + 2 * e == Times(2 * i + 1, k)
  {
    e := Times(i, k);
  }

  lemma TwistPower<T(!new)>(r: Ring<T>, w: T, k: nat, e: nat, x: T)
    requires r.Laws()
    ensures r.mul(r.Pow(w, k), r.mul(x, r.Pow(r.mul(w, w), e))) == r.mul(x, r.Pow(w, k + 2 * e))
  {
    PowSquare(r, w, e);
    PowAdd(r, w, k, 2 * e);
    TwistTerm(r, r.Pow(w, k), x, r.Pow(w, 2 * e));
  }

  lemma TwistTerm<T(!new)>(r: Ring<T>, p: T, x: T, q: T)
    requires r.Laws()
    ensures r.mul(p, r.mul(x, q)) == r.mul(x, r.mul(p, q))
  {
    MulLaws(r, p, x, q);
    MulLaws(r, x, p, q);
  }

  lemma DftSplit<T(!new)>(r: Ring<T>, s: seq<T>, w: T, k: nat)
    requires r.Laws() && |s| % 2 == 0
    ensures DftAt(r, s, w, k) ==
            r.add(DftAt(r, Evens(s), r.mul(w, w), k), r.mul(r.Pow(w, k), DftAt(r, Odds(s), r.mul(w, w), k)))
  {
    var n, ww := |s| / 2, r.mul(w, w);
    var f, even, odd := Term(r, s, w, k), Term(r, Evens(s), ww, k), Term(r, Odds(s), ww, k);
    var twisted := (i: nat) => r.mul(r.Pow(w, k), odd(i));
    forall i: nat | i < n ensures even(i) == f(2 * i) && twisted(i) == f(2 * i + 1) {
      EvenTerm(r, s, w, k, i);
      OddTerm(r, s, w, k, i);
    }
    SumEvenOdd(r, n, f, even, twisted);
    SumMul(r, n, r.Pow(w, k), odd, twisted);
    assert DftAt(r, s, w, k) == r.Sum(|s|, f) && |s| == 2 * n;
    assert DftAt(r, Evens(s), ww, k) == r.Sum(n, even);
    assert DftAt(r, Odds(s), ww, k) == r.Sum(n, odd);
  }

  lemma DftPeriodic<T(!new)>(r: Ring<T>, s: seq<T>, w: T, k: nat, n: nat)
    requires r.Laws() && r.Pow(w, n) == r.one
    ensures DftAt(r, s, w, k + n) == DftAt(r, s, w, k)
  {
    forall j: nat | j < |s| ensures Term(r, s, w, k + n)(j) == Term(r, s, w, k)(j) {
      assert j * (k + n) == j * k + n * j;
      PowPeriodic(r, w, j * k, n, j);
    }
    SumEqual(r, |s|, Term(r, s, w, k + n), Term(r, s, w, k));
  }

  /** Two half-size transforms make one full-size transform. */
  lemma Butterfly<T(!new)>(r: Ring<T>, roots: nat -> T, s: seq<T>, m: nat, k: nat)
    requires GoodRoots(r, roots) && |s| == Pow2(m + 1) && k < Pow2(m)
    ensures var even, odd := Dft(r, Evens(s), roots(m)), Dft(r, Odds(s), roots(m));
            var twist := r.mul(r.Pow(roots(m + 1), k), odd[k]);
            && Dft(r, s, roots(m + 1))[k] == r.add(even[k], twist)
            && Dft(r, s, roots(m + 1))[Pow2(m) + k] == r.add(even[k], r.neg(twist))
  {
    var h, w, ww := Pow2(m), roots(m + 1), roots(m);
    assert SquaresAt(r, roots, m);
    DftSplit(r, s, w, k);
    DftSplit(r, s, w, k + h);
    RootPowFull(r, roots, m);
    DftPeriodic(r, Evens(s), ww, k, h);
    DftPeriodic(r, Odds(s), ww, k, h);
    RootPowHalf(r, roots, m);
    PowAdd(r, w, k, h);
    var p, o := r.Pow(w, k), DftAt(r, Odds(s), ww, k);
    MulNeg(r, r.one, p);
    MulLaws(r, p, r.one, r.neg(r.one));
    MulNeg(r, p, o);
  }

  // ---- the iterative algorithm's intermediate states

  /**
   * What the output holds once blocks of size 2^b are done: each block is the
   * transform of its own interleaved subsequence of the input.
   */
  function Stage<T(!new)>(r: Ring<T>, roots: nat -> T, s: seq<T>, m: nat, b: nat): (t: seq<T>)
    requires |s| == Pow2(m)
    ensures |t| == |s|
    decreases m
  {
    if m <= b then Dft(r, s, roots(m))
    else Stage(r, roots, Evens(s), m - 1, b) + Stage(r, roots, Odds(s), m - 1, b)
  }

  /** start is the first index of a block of size 2^b in an array of size 2^m. */
  predicate Aligned(start: nat, m: nat, b: nat) {
    if m <= b then start == 0
    else if start < Pow2(m - 1) then Aligned(start, m - 1, b)
    else Aligned(start - Pow2(m - 1), m - 1, b)
  }

  lemma {:induction false} AlignedFits(start: nat, m: nat, b: nat)
    requires b <= m && Aligned(start, m, b)
    ensures start + Pow2(b) <= Pow2(m)
    decreases m
  {
    if m > b {
      AlignedFits(if start < Pow2(m - 1) then start else start - Pow2(m - 1), m - 1, b);
    }
  }

  lemma {:induction false} AlignedZero(m: nat, b: nat)
    ensures Aligned(0, m, b)
  {
    if m > b { AlignedZero(m - 1, b); }
  }

  lemma {:induction false} AlignedNext(start: nat, m: nat, b: nat)
    requires b <= m && Aligned(start, m, b) && start + Pow2(b) < Pow2(m)
    ensures Aligned(start + Pow2(b), m, b)
    decreases m
  {
    if start < Pow2(m - 1) {
      AlignedFits(start, m - 1, b);
      if start + Pow2(b) < Pow2(m - 1) { AlignedNext(start, m - 1, b); } else { AlignedZero(m - 1, b); }
    } else {
      AlignedNext(start - Pow2(m - 1), m - 1, b);
    }
  }

  /** The n-th butterfly of the block at start, with half-size h and twiddle factor p. */
  ghost predicate ButterflyWith<T(!new)>(r: Ring<T>, p: T, before: seq<T>, after: seq<T>, start: nat, h: nat, n: nat)
    requires start + n + h < |before| == |after|
  {
    var i := start + n;
    var twist := r.mul(p, before[i + h]);
    after[i] == r.add(before[i], twist) && after[i + h] == r.add(before[i], r.neg(twist))
  }

  /** The same with twiddle factor w^n. */
  ghost predicate ButterflyAt<T(!new)>(r: Ring<T>, w: T, before: seq<T>, after: seq<T>, start: nat, h: nat, n: nat)
    requires start + n + h < |before| == |after|
  {
    ButterflyWith(r, r.Pow(w, n), before, after, start, h, n)
  }

  lemma StageParts<T(!new)>(r: Ring<T>, roots: nat -> T, s: seq<T>, m: nat, b: nat)
    requires |s| == Pow2(m) && b < m
    ensures |Evens(s)| == |Odds(s)| == Pow2(m - 1)
    ensures Stage(r, roots, s, m, b) == Stage(r, roots, Evens(s), m - 1, b) + Stage(r, roots, Odds(s), m - 1, b)
  {
  }

  /** Two halves e and o that become d. */
  lemma ButterflyWhole<T(!new)>(r: Ring<T>, w: T, e: seq<T>, o: seq<T>, d: seq<T>, h: nat, n: nat)
    requires |e| == |o| == h && |d| == 2 * h && n < h
    requires var twist := r.mul(r.Pow(w, n), o[n]); d[n] == r.add(e[n], twist) && d[h + n] == r.add(e[n], r.neg(twist))
    ensures ButterflyAt(r, w, e + o, d, 0, h, n)
  {
    assert (e + o)[n] == e[n] && (e + o)[n + h] == o[n];
  }

  /** The last stage has a single block. */
  lemma StageStepWhole<T(!new)>(r: Ring<T>, roots: nat -> T, s: seq<T>, b: nat, n: nat)
    requires GoodRoots(r, roots) && |s| == Pow2(b + 1) && n < Pow2(b)
    ensures ButterflyAt(r, roots(b + 1), Stage(r, roots, s, b + 1, b), Stage(r, roots, s, b + 1, b + 1), 0, Pow2(b), n)
  {
    StageParts(r, roots, s, b + 1, b);
    Butterfly(r, roots, s, b, n);
    ButterflyWhole(r, roots(b + 1), Dft(r, Evens(s), roots(b)), Dft(r, Odds(s), roots(b)), Dft(r, s, roots(b + 1)),
                   Pow2(b), n);
  }

  /** One butterfly of one block turns stage b into stage b + 1, whichever block it is. */
  lemma {:induction false} StageStep<T(!new)>(r: Ring<T>, roots: nat -> T, s: seq<T>, m: nat, b: nat, start: nat,
                                       n: nat)
    requires GoodRoots(r, roots) && |s| == Pow2(m) && b < m
    requires n < Pow2(b) && Aligned(start, m, b + 1) && start + Pow2(b + 1) <= Pow2(m)
    ensures ButterflyAt(r, roots(b + 1), Stage(r, roots, s, m, b), Stage(r, roots, s, m, b + 1), start, Pow2(b), n)
    decreases m
  {
    if m == b + 1 {
      StageStepWhole(r, roots, s, b, n);
    } else {
      var e, o := Stage(r, roots, Evens(s), m - 1, b), Stage(r, roots, Odds(s), m - 1, b);
      var e', o' := Stage(r, roots, Evens(s), m - 1, b + 1), Stage(r, roots, Odds(s), m - 1, b + 1);
      if start < Pow2(m - 1) {
        AlignedFits(start, m - 1, b + 1);
        StageStep(r, roots, Evens(s), m - 1, b, start, n);
      } else {
        StageStep(r, roots, Odds(s), m - 1, b, start - Pow2(m - 1), n);
      }
      assert |e| == |o| == |e'| == |o'| == Pow2(m - 1);
      ButterflyConcat(r, roots(b + 1), e, o, e', o', start, Pow2(b), n);
    }
  }

  lemma ButterflyConcat<T(!new)>(r: Ring<T>, w: T, e: seq<T>, o: seq<T>, e': seq<T>, o': seq<T>, start: nat, h: nat,
                          n: nat)
    requires |e| == |e'| && |o| == |o'|
    requires (start + n + h < |e| && ButterflyAt(r, w, e, e', start, h, n))
          || (|e| <= start && start + n + h < |e| + |o| && ButterflyAt(r, w, o, o', start - |e|, h, n))
    ensures ButterflyAt(r, w, e + o, e' + o', start, h, n)
  {
  }

  lemma MulMono(a: nat, b: nat, c: nat)
    requires a <= b
    ensures a * c <= b * c
  {
  }

  // ---- bit reversal

  /** The n low bits of i in reverse order. */
  function Reversed(i: nat, n: nat): (k: nat)
    ensures k < Pow2(n)
  {
    if n == 0 then 0
    else if i % 2 == 0 then Reversed(i / 2, n - 1)
    else Pow2(n - 1) + Reversed(i / 2, n - 1)
  }

  lemma DftOne<T(!new)>(r: Ring<T>, s: seq<T>, w: T)
    requires r.Laws() && |s| == 1
    ensures DftAt(r, s, w, 0) == s[0]
  {
    var f := Term(r, s, w, 0);
    MulLaws(r, s[0], r.one, r.one);
    AddLaws(r, s[0], r.zero, r.zero);
    assert f(0) == r.mul(s[0], r.Pow(w, 0));
    assert f(0) == s[0];
    assert r.Sum(1, f) == r.add(r.Sum(0, f), f(0));
  }

  /** Stage 0 is the input in bit-reversed order. */
  lemma {:induction false} StageZero<T(!new)>(r: Ring<T>, roots: nat -> T, s: seq<T>, m: nat, i: nat)
    requires GoodRoots(r, roots) && |s| == Pow2(m) && i < |s|
    ensures Stage(r, roots, s, m, 0)[Reversed(i, m)] == s[i]
    decreases m
  {
    if m == 0 {
      StageOne(r, roots, s);
    } else {
      StageParts(r, roots, s, m, 0);
      HalvesAt(s, i);
      if i % 2 == 0 { StageZero(r, roots, Evens(s), m - 1, i / 2); }
          else { StageZero(r, roots, Odds(s), m - 1, i / 2); }
      ReversedIndex(Stage(r, roots, Evens(s), m - 1, 0), Stage(r, roots, Odds(s), m - 1, 0), i, m);
    }
  }

  lemma StageOne<T(!new)>(r: Ring<T>, roots: nat -> T, s: seq<T>)
    requires GoodRoots(r, roots) && |s| == 1
    ensures Stage(r, roots, s, 0, 0)[0] == s[0]
  {
    DftOne(r, s, roots(0));
    assert Stage(r, roots, s, 0, 0)[0] == DftAt(r, s, roots(0), 0);
  }

  lemma HalvesAt<T>(s: seq<T>, i: nat)
    requires |s| % 2 == 0 && i < |s|
    ensures i / 2 < |Evens(s)| && i / 2 < |Odds(s)|
    ensures (if i % 2 == 0 then Evens(s) else Odds(s))[i / 2] == s[i]
  {
  }

  /** The low bit decides which half a reversed index falls into. */
  lemma ReversedIndex<T>(e: seq<T>, o: seq<T>, i: nat, m: nat)
    requires m > 0 && |e| == |o| == Pow2(m - 1)
    ensures (e + o)[Reversed(i, m)] == (if i % 2 == 0 then e else o)[Reversed(i / 2, m - 1)]
  {
  }

  /** Reversed with the low bit split off at the other end. */
  lemma {:induction false} ReversedLast(i: nat, n: nat)
    ensures Reversed(i, n + 1) == i / Pow2(n) % 2 + 2 * Reversed(i, n)
  {
    if n != 0 {
      ReversedLast(i / 2, n - 1);
      DivDiv(i, Pow2(n - 1));
    }
  }

  lemma DivDiv(i: nat, p: nat)
    requires p > 0
    ensures i / (2 * p) == i / 2 / p
  {
    var q, t := i / 2 / p, i / 2 % p;
    assert i == (2 * p) * q + (2 * t + i % 2);
    ModUnique(i, 2 * p, q, 2 * t + i % 2);
  }

  /** The low bit of i becomes the high bit of the result. */
  lemma ReversedHigh(i: nat, n: nat)
    requires n > 0
    ensures Reversed(i, n) / Pow2(n - 1) == i % 2
    ensures Reversed(i, n) % Pow2(n - 1) == Reversed(i / 2, n - 1)
  {
    ModUnique(Reversed(i, n), Pow2(n - 1), if i % 2 == 0 then 0 else 1, Reversed(i / 2, n - 1));
  }

  /** Bit reversal is its own inverse, hence a permutation of 0 .. 2^n - 1. */
  lemma {:induction false} ReversedInvolution(i: nat, n: nat)
    requires i < Pow2(n)
    ensures Reversed(Reversed(i, n), n) == i
  {
    if n != 0 {
      ReversedHigh(i, n);
      ReversedInvolution(i / 2, n - 1);
      ReversedFrom(Reversed(i, n), n - 1, i);
    }
  }

  lemma ReversedFrom(k: nat, n: nat, i: nat)
    requires k / Pow2(n) == i % 2 && Reversed(k % Pow2(n), n) == i / 2
    ensures Reversed(k, n + 1) == i
  {
    ReversedLast(k, n);
    ReversedLow(k, n);
  }

  /** Only the n low bits matter. */
  lemma {:induction false} ReversedLow(i: nat, n: nat)
    ensures Reversed(i, n) == Reversed(i % Pow2(n), n)
  {
    if n != 0 {
      var p := Pow2(n - 1);
      ModDouble(i, p);
      ReversedLow(i / 2, n - 1);
      assert (i % (2 * p)) / 2 == i / 2 % p;
    }
  }

  // ---- inversion

  /** The sum of (w^d)^k over one period is 2^m if 2^m divides d and zero otherwise. */
  lemma {:induction false} Orthogonality<T(!new)>(r: Ring<T>, roots: nat -> T, m: nat, d: nat, f: nat -> T)
    requires GoodRoots(r, roots)
    requires forall k: nat | k < Pow2(m) :: f(k) == r.Pow(roots(m), Times(d, k))
    ensures r.Sum(Pow2(m), f) == if d % Pow2(m) == 0 then r.OfNat(Pow2(m)) else r.zero
  {
    if m == 0 {
      assert f(0) == r.one;
      SumConst(r, 1, f);
    } else {
      var h, s := Pow2(m - 1), r.Sum(Pow2(m - 1), f);
      SumHalves(r, roots, m - 1, d, f);
      ModDouble(d, h);
      AddLaws(r, r.zero, r.zero, r.zero);
      if d % 2 == 0 {
        forall k: nat | k < h ensures f(k) == r.Pow(roots(m - 1), Times(d / 2, k)) {
          EvenPower(d, k);
          assert SquaresAt(r, roots, m - 1);
          PowSquare(r, roots(m), Times(d / 2, k));
        }
        Orthogonality(r, roots, m - 1, d / 2, f);
        OfNatAdd(r, h, h);
      }
    }
  }

  function Times(d: nat, k: nat): nat { d * k }

  /** The second half of a period repeats the first for even d and cancels it for odd d. */
  lemma SumHalves<T(!new)>(r: Ring<T>, roots: nat -> T, m: nat, d: nat, f: nat -> T)
    requires GoodRoots(r, roots)
    requires forall k: nat | k < Pow2(m + 1) :: f(k) == r.Pow(roots(m + 1), Times(d, k))
    ensures r.Sum(Pow2(m + 1), f) ==
            if d % 2 == 0 then r.add(r.Sum(Pow2(m), f), r.Sum(Pow2(m), f)) else r.zero
  {
    SecondHalf(r, roots, m, d, f);
    TwoHalves(r, Pow2(m), f, r.Pow(r.neg(r.one), d));
    SignedHalf(r, d, r.Sum(Pow2(m), f));
  }

  lemma SecondHalf<T(!new)>(r: Ring<T>, roots: nat -> T, m: nat, d: nat, f: nat -> T)
    requires GoodRoots(r, roots)
    requires forall k: nat | k < Pow2(m + 1) :: f(k) == r.Pow(roots(m + 1), Times(d, k))
    ensures forall k: nat | k < Pow2(m) :: f(Pow2(m) + k) == r.mul(r.Pow(r.neg(r.one), d), f(k))
  {
    forall k: nat | k < Pow2(m) ensures f(Pow2(m) + k) == r.mul(r.Pow(r.neg(r.one), d), f(k)) {
      HalfTurn(r, roots, m, d, k);
    }
  }

  lemma TwoHalves<T(!new)>(r: Ring<T>, h: nat, f: nat -> T, sign: T)
    requires r.Laws() && forall k: nat | k < h :: f(h + k) == r.mul(sign, f(k))
    ensures r.Sum(2 * h, f) == r.add(r.Sum(h, f), r.mul(sign, r.Sum(h, f)))
  {
    var shifted := (k: nat) => f(h + k);
    SumConcat(r, h, h, f, shifted);
    SumMul(r, h, sign, f, shifted);
    assert h + h == 2 * h;
  }

  lemma SignedHalf<T(!new)>(r: Ring<T>, d: nat, s: T)
    requires r.Laws()
    ensures r.add(s, r.mul(r.Pow(r.neg(r.one), d), s)) == if d % 2 == 0 then r.add(s, s) else r.zero
  {
    MinusOnePow(r, d);
    MulNeg(r, r.one, s);
    MulLaws(r, s, r.one, r.one);
    AddLaws(r, s, s, s);
  }

  lemma EvenPower(d: nat, k: nat)
    requires d % 2 == 0
    ensures Times(d, k) == 2 * Times(d / 2, k)
  {
  }

  /** Half a period further on, the d-th harmonic has its sign changed d times. */
  lemma HalfTurn<T(!new)>(r: Ring<T>, roots: nat -> T, m: nat, d: nat, k: nat)
    requires GoodRoots(r, roots)
    ensures r.Pow(roots(m + 1), Times(d, Pow2(m) + k)) ==
            r.mul(r.Pow(r.neg(r.one), d), r.Pow(roots(m + 1), Times(d, k)))
  {
    var h, w := Pow2(m), roots(m + 1);
    assert Times(d, h + k) == h * d + d * k;
    PowAdd(r, w, h * d, d * k);
    PowPow(r, w, h, d);
    RootPowHalf(r, roots, m);
  }

  lemma {:induction false} MinusOnePow<T(!new)>(r: Ring<T>, d: nat)
    requires r.Laws()
    ensures r.Pow(r.neg(r.one), d) == if d % 2 == 0 then r.one else r.neg(r.one)
  {
    if d != 0 {
      var minus := r.neg(r.one);
      MinusOnePow(r, d - 1);
      MulLaws(r, minus, r.one, r.one);
      MulNeg(r, r.one, minus);
      NegNeg(r, r.one);
    }
  }

  lemma {:induction false} OfNatAdd<T(!new)>(r: Ring<T>, a: nat, b: nat)
    requires r.Laws()
    ensures r.OfNat(a + b) == r.add(r.OfNat(a), r.OfNat(b))
  {
    AddLaws(r, r.OfNat(a), r.zero, r.zero);
    if b != 0 {
      OfNatAdd(r, a, b - 1);
      AddLaws(r, r.OfNat(a), r.OfNat(b - 1), r.one);
    }
  }

  /** (w^l)^k * (v^j)^k for v the inverse of w: the quotient of the two harmonics. */
  lemma Kernel<T(!new)>(r: Ring<T>, w: T, v: T, l: nat, j: nat, k: nat)
    requires r.Laws() && r.mul(w, v) == r.one
    ensures r.mul(r.Pow(w, Times(l, k)), r.Pow(v, Times(k, j))) ==
            if l >= j then r.Pow(w, Times(l - j, k)) else r.Pow(v, Times(j - l, k))
  {
    var low := if l >= j then j else l;
    var e := Times(low, k);
    PowProduct(r, w, v, e);
    PowOne(r, e);
    if l >= j {
      var d := Times(l - j, k);
      assert Times(l, k) == d + e && Times(k, j) == e;
      PowAdd(r, w, d, e);
      MulLaws(r, r.Pow(w, d), r.Pow(w, e), r.Pow(v, e));
      MulLaws(r, r.Pow(w, d), r.one, r.one);
    } else {
      var d := Times(j - l, k);
      assert Times(l, k) == e && Times(k, j) == e + d;
      PowAdd(r, v, e, d);
      MulLaws(r, r.Pow(w, e), r.Pow(v, e), r.Pow(v, d));
      MulLaws(r, r.Pow(v, d), r.one, r.one);
    }
  }

  lemma SmallMod(d: nat, p: nat)
    requires d < p
    ensures d % p == d
  {
  }

  /** The kernel summed over k picks out l = j. */
  lemma KernelSum<T(!new)>(r: Ring<T>, roots: nat -> T, inverses: nat -> T, m: nat, l: nat, j: nat, f: nat -> T)
    requires InverseRoots(r, roots, inverses) && l < Pow2(m) && j < Pow2(m)
    requires forall k: nat | k < Pow2(m) ::
               f(k) == r.mul(r.Pow(roots(m), Times(l, k)), r.Pow(inverses(m), Times(k, j)))
    ensures r.Sum(Pow2(m), f) == if l == j then r.OfNat(Pow2(m)) else r.zero
  {
    assert InverseAt(r, roots, inverses, m);
    forall k: nat | k < Pow2(m)
      ensures f(k) == if l >= j then r.Pow(roots(m), Times(l - j, k)) else r.Pow(inverses(m), Times(j - l, k))
    {
      Kernel(r, roots(m), inverses(m), l, j, k);
    }
    if l >= j {
      SmallMod(l - j, Pow2(m));
      Orthogonality(r, roots, m, l - j, f);
    } else {
      SmallMod(j - l, Pow2(m));
      Orthogonality(r, inverses, m, j - l, f);
    }
  }

  /** Transforming with the inverse roots undoes the transform, up to the factor 2^m. */
  lemma DoubleTransform<T(!new)>(r: Ring<T>, roots: nat -> T, inverses: nat -> T, s: seq<T>, m: nat, j: nat)
    requires InverseRoots(r, roots, inverses) && |s| == Pow2(m) && j < |s|
    ensures DftAt(r, Dft(r, s, roots(m)), inverses(m), j) == r.mul(s[j], r.OfNat(Pow2(m)))
  {
    var w, v, n := roots(m), inverses(m), |s|;
    var f := (k: nat, l: nat) =>
      if l < n then r.mul(s[l], r.mul(r.Pow(w, Times(l, k)), r.Pow(v, Times(k, j)))) else r.zero;
    var rows := Term(r, Dft(r, s, w), v, j);
    forall k: nat | k < n ensures rows(k) == r.Sum(n, Row(f, k)) {
      var p, g := r.Pow(v, Times(k, j)), Term(r, s, w, k);
      forall l: nat | l < n ensures Row(f, k)(l) == r.mul(p, g(l)) {
        MulLaws(r, s[l], r.Pow(w, Times(l, k)), p);
        MulLaws(r, p, g(l), p);
        assert g(l) == r.mul(s[l], r.Pow(w, Times(l, k)));
      }
      SumMul(r, n, p, g, Row(f, k));
      MulLaws(r, p, r.Sum(n, g), p);
      assert rows(k) == r.mul(Dft(r, s, w)[k], p);
    }
    var cols := (l: nat) => r.Sum(n, Col(f, l));
    SumSwap(r, n, n, f, rows, cols);
    forall l: nat | l < n ensures cols(l) == if l == j then r.mul(s[j], r.OfNat(n)) else r.zero {
      var g := (k: nat) => r.mul(r.Pow(w, Times(l, k)), r.Pow(v, Times(k, j)));
      KernelSum(r, roots, inverses, m, l, j, g);
      SumMul(r, n, s[l], g, Col(f, l));
      MulZero(r, s[l]);
    }
    SumSingle(r, n, j, cols);
  }

  /** The inverse transform: inverse roots, then every coefficient multiplied by invN. */
  function InverseDft<T(!new)>(r: Ring<T>, t: seq<T>, v: T, invN: T): (s: seq<T>)
    ensures |s| == |t| && forall j | 0 <= j < |t| :: s[j] == r.mul(DftAt(r, t, v, j), invN)
  {
    seq(|t|, j requires 0 <= j => r.mul(DftAt(r, t, v, j), invN))
  }

  /** Inverse transform after transform is the identity. */
  lemma InverseAfterForward<T(!new)>(r: Ring<T>, roots: nat -> T, inverses: nat -> T, s: seq<T>, m: nat, invN: T)
    requires InverseRoots(r, roots, inverses) && |s| == Pow2(m)
    requires r.mul(r.OfNat(Pow2(m)), invN) == r.one
    ensures InverseDft(r, Dft(r, s, roots(m)), inverses(m), invN) == s
  {
    forall j | 0 <= j < |s| ensures InverseDft(r, Dft(r, s, roots(m)), inverses(m), invN)[j] == s[j] {
      DoubleTransform(r, roots, inverses, s, m, j);
      MulLaws(r, s[j], r.OfNat(Pow2(m)), invN);
    }
  }

  /** Transform after inverse transform is the identity. */
  lemma ForwardAfterInverse<T(!new)>(r: Ring<T>, roots: nat -> T, inverses: nat -> T, t: seq<T>, m: nat, invN: T)
    requires InverseRoots(r, roots, inverses) && |t| == Pow2(m)
    requires r.mul(r.OfNat(Pow2(m)), invN) == r.one
    ensures Dft(r, InverseDft(r, t, inverses(m), invN), roots(m)) == t
  {
    var u, s := Dft(r, t, inverses(m)), InverseDft(r, t, inverses(m), invN);
    forall m: nat ensures InverseAt(r, inverses, roots, m) {
      assert InverseAt(r, roots, inverses, m);
      MulLaws(r, roots(m), inverses(m), r.one);
    }
    forall k | 0 <= k < |t| ensures Dft(r, s, roots(m))[k] == t[k] {
      var f, g := Term(r, u, roots(m), k), Term(r, s, roots(m), k);
      forall j: nat | j < |t| ensures g(j) == r.mul(invN, f(j)) {
        MulLaws(r, u[j], invN, r.one);
        MulLaws(r, invN, u[j], r.Pow(roots(m), j * k));
      }
      SumMul(r, |t|, invN, f, g);
      DoubleTransform(r, inverses, roots, t, m, k);
      MulLaws(r, invN, r.mul(t[k], r.OfNat(Pow2(m))), r.one);
      MulLaws(r, t[k], r.OfNat(Pow2(m)), invN);
    }
  }

  // ---- convolution

  /** Circular convolution: the sum of x[j] * h[(n - j) mod N]. */
  function CircularTerm<T(!new)>(r: Ring<T>, x: seq<T>, h: seq<T>, n: nat): nat -> T {
    (j: nat) => if |h| > 0 && j < |x| then r.mul(x[j], h[(n - j) % |h|]) else r.zero
  }

  function Circular<T(!new)>(r: Ring<T>, x: seq<T>, h: seq<T>): (y: seq<T>)
    ensures |y| == |x| && forall n | 0 <= n < |x| :: y[n] == r.Sum(|x|, CircularTerm(r, x, h, n))
  {
    seq(|x|, n requires 0 <= n => r.Sum(|x|, CircularTerm(r, x, h, n)))
  }

  /** The slot j places before slot i on a circle of n slots. */
  function Back(i: nat, j: nat, n: nat): (d: nat)
    requires i < n && j < n
    ensures d < n
  {
    if i >= j then i - j else i - j + n
  }

  lemma BackIsMod(i: nat, j: nat, n: nat)
    requires i < n && j < n
    ensures Back(i, j, n) == (i - j) % n
  {
  }

  /** Summing over a whole period does not depend on where the period starts. */
  lemma SumRotate<T(!new)>(r: Ring<T>, n: nat, j: nat, g: nat -> T, f: nat -> T)
    requires r.Laws() && j < n
    requires forall i: nat {:trigger Back(i, j, n)} | i < n :: f(i) == g(Back(i, j, n))
    ensures r.Sum(n, f) == r.Sum(n, g)
  {
    var c := n - j;
    assert c + j == n;
    forall i: nat | i < c ensures g(i) == f(j + i) { assert Back(j + i, j, n) == i; }
    SumConcat(r, j, c, f, g);
    forall i: nat | i < j ensures f(i) == g(c + i) { assert Back(i, j, n) == c + i; }
    SumConcat(r, c, j, g, f);
    AddLaws(r, r.Sum(j, f), r.Sum(c, g), r.zero);
  }

  /** w^(n*k) splits at j, reducing the difference modulo the period. */
  lemma PowShift<T(!new)>(r: Ring<T>, w: T, size: nat, n: nat, j: nat, k: nat)
    requires r.Laws() && r.Pow(w, size) == r.one && n < size && j < size
    ensures r.Pow(w, Times(n, k)) == r.mul(r.Pow(w, Times(j, k)), r.Pow(w, Times(Back(n, j, size), k)))
  {
    var d := Back(n, j, size);
    PowAdd(r, w, Times(j, k), Times(d, k));
    TimesAdd(j, d, k);
    if n < j {
      TimesAdd(n, size, k);
      PowPeriodic(r, w, Times(n, k), size, k);
    }
  }

  lemma TimesAdd(a: nat, b: nat, k: nat)
    ensures Times(a + b, k) == Times(a, k) + Times(b, k)
  {
  }

  /** The transform turns circular convolution into element-wise multiplication. */
  lemma ConvolutionTheorem<T(!new)>(r: Ring<T>, x: seq<T>, h: seq<T>, w: T, k: nat)
    requires r.Laws() && |x| == |h| > 0 && r.Pow(w, |x|) == r.one
    ensures DftAt(r, Circular(r, x, h), w, k) == r.mul(DftAt(r, x, w, k), DftAt(r, h, w, k))
  {
    var n := |x|;
    var f := (i: nat, j: nat) =>
      if i < n && j < n then r.mul(r.mul(x[j], h[Back(i, j, n)]), r.Pow(w, Times(i, k))) else r.zero;
    var rows := Term(r, Circular(r, x, h), w, k);
    forall i: nat | i < n ensures rows(i) == r.Sum(n, Row(f, i)) {
      var p, g := r.Pow(w, Times(i, k)), CircularTerm(r, x, h, i);
      forall j: nat | j < n ensures Row(f, i)(j) == r.mul(p, g(j)) {
        BackIsMod(i, j, n);
        MulLaws(r, g(j), p, p);
      }
      SumMul(r, n, p, g, Row(f, i));
      MulLaws(r, p, r.Sum(n, g), p);
    }
    var cols := (j: nat) => r.Sum(n, Col(f, j));
    SumSwap(r, n, n, f, rows, cols);
    var hk := DftAt(r, h, w, k);
    forall j: nat | j < n ensures cols(j) == r.mul(hk, Term(r, x, w, k)(j)) {
      ConvolutionColumn(r, x, h, w, k, j, Col(f, j));
      MulLaws(r, hk, Term(r, x, w, k)(j), hk);
    }
    SumMul(r, n, hk, Term(r, x, w, k), cols);
    MulLaws(r, hk, DftAt(r, x, w, k), hk);
  }

  lemma ConvolutionColumn<T(!new)>(r: Ring<T>, x: seq<T>, h: seq<T>, w: T, k: nat, j: nat, col: nat -> T)
    requires r.Laws() && |x| == |h| > 0 && r.Pow(w, |x|) == r.one && j < |x|
    requires forall i: nat | i < |x| :: col(i) == r.mul(r.mul(x[j], h[Back(i, j, |h|)]), r.Pow(w, Times(i, k)))
    ensures r.Sum(|x|, col) == r.mul(Term(r, x, w, k)(j), DftAt(r, h, w, k))
  {
    var n, c, g := |x|, Term(r, x, w, k)(j), Term(r, h, w, k);
    var turned := (i: nat) => if i < n then g(Back(i, j, n)) else r.zero;
    assert c == r.mul(x[j], r.Pow(w, Times(j, k)));
    forall i: nat | i < n ensures col(i) == r.mul(c, turned(i)) {
      var d := Back(i, j, n);
      PowShift(r, w, n, i, j, k);
      MulInterchange(r, x[j], h[d], r.Pow(w, Times(j, k)), r.Pow(w, Times(d, k)));
      assert turned(i) == r.mul(h[d], r.Pow(w, Times(d, k)));
    }
    SumMul(r, n, c, turned, col);
    SumRotate(r, n, j, g, turned);
  }

  /** Transform, multiply, transform back: circular convolution with the inverse transform of the filter. */
  lemma FastConvolution<T(!new)>(r: Ring<T>, roots: nat -> T, inverses: nat -> T, m: nat, invN: T,
                                 x: seq<T>, filter: seq<T>, product: seq<T>)
    requires InverseRoots(r, roots, inverses) && |x| == |filter| == |product| == Pow2(m)
    requires r.mul(r.OfNat(Pow2(m)), invN) == r.one
    requires forall k | 0 <= k < |x| :: product[k] == r.mul(Dft(r, x, roots(m))[k], filter[k])
    ensures InverseDft(r, product, inverses(m), invN) ==
            Circular(r, x, InverseDft(r, filter, inverses(m), invN))
  {
    var h := InverseDft(r, filter, inverses(m), invN);
    ForwardAfterInverse(r, roots, inverses, filter, m, invN);
    RootPowFull(r, roots, m);
    forall k | 0 <= k < |x| ensures product[k] == Dft(r, Circular(r, x, h), roots(m))[k] {
      ConvolutionTheorem(r, x, h, roots(m), k);
      assert Dft(r, h, roots(m))[k] == filter[k];
    }
    assert product == Dft(r, Circular(r, x, h), roots(m));
    InverseAfterForward(r, roots, inverses, Circular(r, x, h), m, invN);
  }
}
