/**
 * The in-place radix-2 FFT and the convolution built on it, in exact arithmetic.
 * sin, cos and pi are parameters: any functions with the identities listed in Trig.At.
 */
module Fft {
  import opened Bits
  import opened Rings
  import opened Fourier

  // ---- complex numbers

  datatype Complex = Cx(re: real, im: real)

  function Add(a: Complex, b: Complex): Complex { Cx(a.re + b.re, a.im + b.im) }

  function Neg(a: Complex): Complex { Cx(-a.re, -a.im) }

  function Mul(a: Complex, b: Complex): Complex {
    Cx(a.re * b.re - a.im * b.im, a.re * b.im + a.im * b.re)
  }

  const C: Ring<Complex> :=
    Ring(Cx(0.0, 0.0), Cx(1.0, 0.0), (a, b) => Add(a, b), a => Neg(a), (a, b) => Mul(a, b))

  lemma MulAssociative(a: Complex, b: Complex, c: Complex)
    ensures Mul(Mul(a, b), c) == Mul(a, Mul(b, c))
  {
  }

  lemma MulDistributes(a: Complex, b: Complex, c: Complex)
    ensures Mul(a, Add(b, c)) == Add(Mul(a, b), Mul(a, c))
  {
  }

  lemma ComplexLaws()
    ensures C.Laws()
  {
    forall a, b, c ensures C.LawsAt(a, b, c) {
      MulAssociative(a, b, c);
      MulDistributes(a, b, c);
    }
  }

  // ---- trigonometry

  datatype Trig = Trig(sin: real -> real, cos: real -> real, pi: real) {

    /** Parity, the unit circle and the double-angle formulas at x. */
    ghost predicate At(x: real) {
      && cos(-x) == cos(x)
      && sin(-x) == -sin(x)
      && cos(x) * cos(x) + sin(x) * sin(x) == 1.0
      && cos(2.0 * x) == cos(x) * cos(x) - sin(x) * sin(x)
      && sin(2.0 * x) == 2.0 * sin(x) * cos(x)
    }

    ghost predicate Good() {
      && cos(pi) == -1.0
      && sin(pi) == 0.0
      && forall x :: At(x)
    }

    /** The angle the program starts from: 2 pi, negated for the inverse transform. */
    function Numerator(inverse: bool): real { if inverse then -(2.0 * pi) else 2.0 * pi }

    function Delta(inverse: bool, m: nat): real { Numerator(inverse) / Pow2(m) as real }

    /** The root of unity of order 2^m on the side of the circle the transform uses. */
    function Roots(inverse: bool): nat -> Complex {
      (m: nat) => Cx(cos(Delta(inverse, m)), sin(Delta(inverse, m)))
    }
  }

  function Cis(t: Trig, x: real): Complex { Cx(t.cos(x), t.sin(x)) }

  lemma CisSquare(t: Trig, x: real)
    requires t.Good()
    ensures Mul(Cis(t, x), Cis(t, x)) == Cis(t, 2.0 * x)
  {
    assert t.At(x);
  }

  lemma CisInverse(t: Trig, x: real)
    requires t.Good()
    ensures Mul(Cis(t, x), Cis(t, -x)) == Cx(1.0, 0.0)
    ensures Mul(Cis(t, -x), Cis(t, x)) == Cx(1.0, 0.0)
  {
    assert t.At(x);
  }

  lemma CisOpposite(t: Trig, x: real)
    requires t.Good()
    ensures t.cos(-x) == t.cos(x)
  {
    assert t.At(x);
  }

  lemma DeltaHalves(t: Trig, inverse: bool, m: nat)
    ensures t.Delta(inverse, m) == 2.0 * t.Delta(inverse, m + 1)
  {
  }

  lemma FirstRoots(t: Trig, inverse: bool)
    requires t.Good()
    ensures Cis(t, t.Delta(inverse, 0)) == Cx(1.0, 0.0)
    ensures Cis(t, t.Delta(inverse, 1)) == Cx(-1.0, 0.0)
  {
    var half := if inverse then -t.pi else t.pi;
    assert t.Numerator(inverse) == 2.0 * half;
    OverOne(t.Numerator(inverse));
    DeltaHalves(t, inverse, 0);
    CisPi(t);
    CisSquare(t, half);
    assert Mul(Cx(-1.0, 0.0), Cx(-1.0, 0.0)) == Cx(1.0, 0.0);
  }

  lemma OverOne(x: real)
    ensures x / 1.0 == x
  {
  }

  lemma CisPi(t: Trig)
    requires t.Good()
    ensures Cis(t, t.pi) == Cx(-1.0, 0.0) && Cis(t, -t.pi) == Cx(-1.0, 0.0)
  {
    assert t.At(t.pi);
  }

  lemma OppositeRoots(t: Trig, m: nat)
    ensures t.Delta(true, m) == -t.Delta(false, m)
  {
  }

  lemma RootSquares(t: Trig, inverse: bool, m: nat)
    requires t.Good()
    ensures SquaresAt(C, t.Roots(inverse), m)
  {
    DeltaHalves(t, inverse, m);
    CisSquare(t, t.Delta(inverse, m + 1));
  }

  lemma RootInverse(t: Trig, inverse: bool, m: nat)
    requires t.Good()
    ensures InverseAt(C, t.Roots(inverse), t.Roots(!inverse), m)
  {
    OppositeRoots(t, m);
    CisInverse(t, t.Delta(false, m));
  }

  lemma TrigRoots(t: Trig, inverse: bool)
    requires t.Good()
    ensures GoodRoots(C, t.Roots(inverse))
  {
    var roots := t.Roots(inverse);
    ComplexLaws();
    assert roots(0) == C.one && roots(1) == C.neg(C.one) by { FirstRoots(t, inverse); }
    forall m: nat ensures SquaresAt(C, roots, m) {
      RootSquares(t, inverse, m);
    }
  }

  lemma TrigInverse(t: Trig, inverse: bool)
    requires t.Good()
    ensures InverseRoots(C, t.Roots(inverse), t.Roots(!inverse))
  {
    var roots, inverses := t.Roots(inverse), t.Roots(!inverse);
    TrigRoots(t, inverse);
    TrigRoots(t, !inverse);
    forall m: nat ensures InverseAt(C, roots, inverses, m) {
      RootInverse(t, inverse, m);
    }
  }

  lemma {:induction false} ComplexOfNat(n: nat)
    ensures C.OfNat(n) == Cx(n as real, 0.0)
  {
    if n != 0 { ComplexOfNat(n - 1); }
  }

  /** Division by n is multiplication by the ring's inverse of n. */
  lemma InverseOfNat(n: nat)
    requires n > 0
    ensures C.mul(C.OfNat(n), Cx(1.0 / n as real, 0.0)) == C.one
  {
    ComplexOfNat(n);
    assert n as real * (1.0 / n as real) == 1.0;
  }

  // ---- bits

  method IsPowerOfTwo(x: nat) returns (yes: bool)
    ensures yes <==> x >= 2 && IsPow2(x)
  {
    if x < 2 {
      return false;
    }
    AndPredecessor(x);
    yes := And(x, x - 1) == 0;
  }

  lemma {:induction false} AndPow2(n: nat, i: nat)
    ensures And(Pow2(n), Pow2(i)) == if n == i then Pow2(n) else 0
  {
    if n != 0 && i != 0 { AndPow2(n - 1, i - 1); }
  }

  method NumberOfBitsNeeded(powerOfTwo: nat) returns (i: nat)
    requires powerOfTwo >= 2 && IsPow2(powerOfTwo)
    ensures i == Log2(powerOfTwo)
  {
    ghost var n := Log2(powerOfTwo);
    Pow2Log2(powerOfTwo);
    i := 0;
    while true
      invariant i <= n
      decreases n - i
    {
      AndPow2(n, i);
      if And(powerOfTwo, Pow2(i)) != 0 {
        return;
      }
      i := i + 1;
    }
  }

  method ReverseBits(index: nat, numBits: nat) returns (rev: nat)
    ensures rev == Reversed(index, numBits)
  {
    rev := 0;
    var rest := index;
    for i := 0 to numBits
      invariant Shifted(rev, numBits - i) + Reversed(rest, numBits - i) == Reversed(index, numBits)
    {
      ShiftIn(rev, rest % 2, numBits - i);
      rev := 2 * rev + rest % 2;
      rest := rest / 2;
    }
  }

  function Shifted(x: nat, n: nat): int { x * Pow2(n) }

  lemma ShiftIn(x: nat, bit: nat, n: nat)
    requires bit < 2 && n > 0
    ensures Shifted(2 * x + bit, n - 1) == Shifted(x, n) + if bit == 0 then 0 else Pow2(n - 1)
  {
  }

  // ---- the transform

  /** The complex sequence held in a pair of real arrays. */
  function Zip(re: seq<real>, im: seq<real>): (z: seq<Complex>)
    requires |re| == |im|
    ensures |z| == |re| && forall i | 0 <= i < |z| :: z[i] == Cx(re[i], im[i])
  {
    seq(|re|, i requires 0 <= i < |re| => Cx(re[i], im[i]))
  }

  /** A missing imaginary input is all zeros. */
  ghost function Input(n: nat, re: array<real>, im: array?<real>): (z: seq<Complex>)
    requires n <= re.Length && (im == null || n <= im.Length)
    reads re, im
    ensures |z| == n
  {
    Zip(re[..n], if im == null then seq(n, _ => 0.0) else im[..n])
  }

  method BitReversedCopy(n: nat, bits: nat, realIn: array<real>, imagIn: array?<real>,
                         realOut: array<real>, imagOut: array<real>)
    requires n == Pow2(bits) && n <= realIn.Length && (imagIn == null || n <= imagIn.Length)
    requires n <= realOut.Length && n <= imagOut.Length
    requires realOut != imagOut && realIn != realOut && realIn != imagOut && imagIn != realOut && imagIn != imagOut
    modifies realOut, imagOut
    ensures forall i | 0 <= i < n ::
              Cx(realOut[Reversed(i, bits)], imagOut[Reversed(i, bits)]) == Input(n, realIn, imagIn)[i]
    ensures realOut[n..] == old(realOut[n..]) && imagOut[n..] == old(imagOut[n..])
  {
    for i := 0 to n
      invariant forall k | 0 <= k < i ::
                  Cx(realOut[Reversed(k, bits)], imagOut[Reversed(k, bits)]) == Input(n, realIn, imagIn)[k]
      invariant realOut[n..] == old(realOut[n..]) && imagOut[n..] == old(imagOut[n..])
    {
      var j := ReverseBits(i, bits);
      forall k | 0 <= k < i ensures Reversed(k, bits) != j {
        ReversedInvolution(k, bits);
        ReversedInvolution(i, bits);
      }
      realOut[j] := realIn[i];
      imagOut[j] := if imagIn == null then 0.0 else imagIn[i];
    }
  }

  /** After the copy the output is stage 0. */
  lemma CopyIsStageZero(roots: nat -> Complex, x: seq<Complex>, m: nat, z: seq<Complex>)
    requires GoodRoots(C, roots) && |x| == |z| == Pow2(m)
    requires forall i | 0 <= i < |x| :: z[Reversed(i, m)] == x[i]
    ensures z == Stage(C, roots, x, m, 0)
  {
    forall p | 0 <= p < |x| ensures z[p] == Stage(C, roots, x, m, 0)[p] {
      var i := Reversed(p, m);
      ReversedInvolution(p, m);
      StageZero(C, roots, x, m, i);
    }
  }

  /** Two-term recurrence: with p = w^(n-1) and q = w^(n-2), 2 Re(w) p - q = w^n. */
  lemma TwiddleStep(w: Complex, p: Complex, q: Complex)
    requires w.re * w.re + w.im * w.im == 1.0
    requires Mul(w, q) == p
    ensures Cx(2.0 * w.re * p.re - q.re, 2.0 * w.re * p.im - q.im) == Mul(w, p)
  {
  }

  /** p and q are w^(n-1) and w^(n-2). (The extra parameter keeps the products out of sight of the loops.) */
  ghost predicate TwiddlesAt(w: Complex, n: nat, p: Complex, q: Complex, unused: nat) {
    && w.re * w.re + w.im * w.im == 1.0
    && Mul(w, q) == p
    && Mul(w, p) == C.Pow(w, n)
  }

  ghost predicate Twiddles(w: Complex, n: nat, p: Complex, q: Complex) {
    forall u: nat :: TwiddlesAt(w, n, p, q, u)
  }

  lemma TwiddlesAdvance(w: Complex, n: nat, p: Complex, q: Complex, next: Complex)
    requires Twiddles(w, n, p, q)
    requires next == Cx(2.0 * w.re * p.re - q.re, 2.0 * w.re * p.im - q.im)
    ensures next == C.Pow(w, n) && Twiddles(w, n + 1, next, p)
  {
    assert TwiddlesAt(w, n, p, q, 0);
    TwiddleStep(w, p, q);
    var n' := n + 1;
    forall u: nat ensures TwiddlesAt(w, n', next, p, u) { }
  }

  /** cos and sin of minus once and minus twice the angle start the recurrence. */
  lemma TwiddlesStart(t: Trig, x: real)
    requires t.Good()
    ensures Twiddles(Cis(t, x), 0, Cis(t, -x), Cis(t, -2.0 * x))
  {
    var w, p, q := Cis(t, x), Cis(t, -x), Cis(t, -2.0 * x);
    CisInverse(t, x);
    assert t.At(x);
    CisSquare(t, -x);
    assert 2.0 * -x == -2.0 * x;
    MulAssociative(w, p, p);
    assert Mul(Cx(1.0, 0.0), p) == p;
    forall u: nat ensures TwiddlesAt(w, 0, p, q, u) { }
  }

  /** The output arrays agree with z on [lo, hi). */
  ghost predicate Holds(realOut: array<real>, imagOut: array<real>, z: seq<Complex>, lo: nat, hi: nat)
    requires hi <= |z| && hi <= realOut.Length && hi <= imagOut.Length
    reads realOut, imagOut
  {
    forall p | lo <= p < hi :: realOut[p] == z[p].re && imagOut[p] == z[p].im
  }

  /** The first n butterflies of the block at start are done, and outside the block re and im are re0 and im0. */
  ghost predicate Halfway(re: seq<real>, im: seq<real>, re0: seq<real>, im0: seq<real>,
                          before: seq<Complex>, after: seq<Complex>, start: nat, h: nat, n: nat)
  {
    forall u: nat :: HalfwayAt(u, re, im, re0, im0, before, after, start, h, n)
  }

  ghost predicate HalfwayAt(unused: nat, re: seq<real>, im: seq<real>, re0: seq<real>, im0: seq<real>,
                            before: seq<Complex>, after: seq<Complex>, start: nat, h: nat, n: nat)
  {
    && n <= h && start + 2 * h <= |before| == |after| <= |re| == |re0| && |before| <= |im| == |im0|
    && (forall p | start <= p < start + 2 * h ::
          var z := if p < start + n || start + h <= p < start + h + n then after[p] else before[p];
          re[p] == z.re && im[p] == z.im)
    && (forall p | 0 <= p < start || start + 2 * h <= p < |re| :: re[p] == re0[p])
    && (forall p | 0 <= p < start || start + 2 * h <= p < |im| :: im[p] == im0[p])
  }

  lemma HalfwayBegins(re: seq<real>, im: seq<real>, before: seq<Complex>, after: seq<Complex>, start: nat, h: nat)
    requires start + 2 * h <= |before| == |after| <= |re| && |before| <= |im|
    requires forall p | start <= p < start + 2 * h :: re[p] == before[p].re && im[p] == before[p].im
    ensures Halfway(re, im, re, im, before, after, start, h, 0)
  {
    forall u: nat ensures HalfwayAt(u, re, im, re, im, before, after, start, h, 0) { }
  }

  /** What the next butterfly finds. */
  lemma HalfwayFinds(re: seq<real>, im: seq<real>, re0: seq<real>, im0: seq<real>,
                     before: seq<Complex>, after: seq<Complex>, start: nat, h: nat, n: nat)
    requires Halfway(re, im, re0, im0, before, after, start, h, n) && n < h
    ensures start + 2 * h <= |before| == |after| && start + 2 * h <= |re| && start + 2 * h <= |im|
    ensures before[start + n] == Cx(re[start + n], im[start + n])
    ensures before[start + n + h] == Cx(re[start + n + h], im[start + n + h])
  {
    assert HalfwayAt(0, re, im, re0, im0, before, after, start, h, n);
  }

  lemma HalfwayOn(re: seq<real>, im: seq<real>, re0: seq<real>, im0: seq<real>,
                  before: seq<Complex>, after: seq<Complex>, start: nat, h: nat, n: nat,
                  re': seq<real>, im': seq<real>, m: nat)
    requires Halfway(re, im, re0, im0, before, after, start, h, n) && n < h && m == n + 1
    requires start + 2 * h <= |after| && start + 2 * h <= |re| && start + 2 * h <= |im|
    requires re' == re[start + n + h := after[start + n + h].re][start + n := after[start + n].re]
    requires im' == im[start + n + h := after[start + n + h].im][start + n := after[start + n].im]
    ensures Halfway(re', im', re0, im0, before, after, start, h, m)
  {
    assert HalfwayAt(0, re, im, re0, im0, before, after, start, h, n);
    forall u: nat ensures HalfwayAt(u, re', im', re0, im0, before, after, start, h, m) { }
  }

  ghost predicate BlockReady(w: Complex, before: seq<Complex>, after: seq<Complex>, start: nat, h: nat)
    requires start + 2 * h <= |before| == |after|
  {
    forall n: nat | n < h :: ButterflyAt(C, w, before, after, start, h, n)
  }

  /** All butterflies of the block at start. */
  method Block(start: nat, blockEnd: nat, realOut: array<real>, imagOut: array<real>,
               cm1: real, sm1: real, cm2: real, sm2: real,
               ghost w: Complex, ghost before: seq<Complex>, ghost after: seq<Complex>)
    requires realOut != imagOut && |before| == |after| <= realOut.Length && |before| <= imagOut.Length
    requires start + 2 * blockEnd <= |before|
    requires cm1 == w.re && Twiddles(w, 0, Cx(cm1, sm1), Cx(cm2, sm2))
    requires BlockReady(w, before, after, start, blockEnd)
    requires Holds(realOut, imagOut, before, start, start + 2 * blockEnd)
    modifies realOut, imagOut
    ensures Holds(realOut, imagOut, after, start, start + 2 * blockEnd)
    ensures forall p | 0 <= p < start || start + 2 * blockEnd <= p < realOut.Length :: realOut[p] == old(realOut[p])
    ensures forall p | 0 <= p < start || start + 2 * blockEnd <= p < imagOut.Length :: imagOut[p] == old(imagOut[p])
  {
    var double := 2.0 * cm1;
    var ar2, ar1, ai2, ai1 := cm2, cm1, sm2, sm1;
    ghost var re0, im0 := realOut[..], imagOut[..];
    HalfwayBegins(re0, im0, before, after, start, blockEnd);
    for n := 0 to blockEnd
      invariant Twiddles(w, n, Cx(ar1, ai1), Cx(ar2, ai2))
      invariant Halfway(realOut[..], imagOut[..], re0, im0, before, after, start, blockEnd, n)
    {
      var ar0 := double * ar1 - ar2;
      var ai0 := double * ai1 - ai2;
      TwiddlesAdvance(w, n, Cx(ar1, ai1), Cx(ar2, ai2), Cx(ar0, ai0));
      ar2, ar1, ai2, ai1 := ar1, ar0, ai1, ai0;
      ghost var i, re, im := start + n, realOut[..], imagOut[..];
      HalfwayFinds(re, im, re0, im0, before, after, start, blockEnd, n);
      TwiddleKnown(w, before, after, start, blockEnd, n, Cx(ar0, ai0));
      Combine(start + n, start + n + blockEnd, realOut, imagOut, ar0, ai0,
              before[i], before[i + blockEnd], after[i], after[i + blockEnd]);
      HalfwayOn(re, im, re0, im0, before, after, start, blockEnd, n, realOut[..], imagOut[..], n + 1);
    }
    assert HalfwayAt(0, realOut[..], imagOut[..], re0, im0, before, after, start, blockEnd, blockEnd);
  }

  /** A butterfly with twiddle factor p takes zj and zk to aj and ak. */
  ghost predicate Twisted(p: Complex, zj: Complex, zk: Complex, aj: Complex, ak: Complex) {
    forall u: nat :: TwistedAt(u, p, zj, zk, aj, ak)
  }

  ghost predicate TwistedAt(unused: nat, p: Complex, zj: Complex, zk: Complex, aj: Complex, ak: Complex) {
    var twist := C.mul(p, zk);
    aj == C.add(zj, twist) && ak == C.add(zj, C.neg(twist))
  }

  /** The same in real and imaginary parts. */
  lemma TwistedParts(p: Complex, zj: Complex, zk: Complex, aj: Complex, ak: Complex, tr: real, ti: real)
    requires Twisted(p, zj, zk, aj, ak)
    requires tr == p.re * zk.re - p.im * zk.im && ti == p.re * zk.im + p.im * zk.re
    ensures aj == Cx(zj.re + tr, zj.im + ti) && ak == Cx(zj.re - tr, zj.im - ti)
  {
    assert TwistedAt(0, p, zj, zk, aj, ak);
    assert Mul(p, zk) == Cx(tr, ti);
  }

  lemma TwiddleKnown(w: Complex, before: seq<Complex>, after: seq<Complex>, start: nat, h: nat, n: nat, p: Complex)
    requires n < h && start + 2 * h <= |before| == |after|
    requires BlockReady(w, before, after, start, h) && p == C.Pow(w, n)
    ensures Twisted(p, before[start + n], before[start + n + h], after[start + n], after[start + n + h])
  {
    assert ButterflyAt(C, w, before, after, start, h, n);
    var i := start + n;
    var zj, zk, aj, ak := before[i], before[i + h], after[i], after[i + h];
    forall u: nat ensures TwistedAt(u, p, zj, zk, aj, ak) { }
  }

  /** One butterfly in place, with twiddle factor (ar0, ai0). */
  method Combine(j: nat, k: nat, realOut: array<real>, imagOut: array<real>, ar0: real, ai0: real,
                 ghost zj: Complex, ghost zk: Complex, ghost aj: Complex, ghost ak: Complex)
    requires realOut != imagOut && j < k < realOut.Length && k < imagOut.Length
    requires zj == Cx(realOut[j], imagOut[j]) && zk == Cx(realOut[k], imagOut[k])
    requires Twisted(Cx(ar0, ai0), zj, zk, aj, ak)
    modifies realOut, imagOut
    ensures realOut[..] == old(realOut[..])[k := ak.re][j := aj.re]
    ensures imagOut[..] == old(imagOut[..])[k := ak.im][j := aj.im]
  {
    var tr := ar0 * realOut[k] - ai0 * imagOut[k];
    var ti := ar0 * imagOut[k] + ai0 * realOut[k];
    TwistedParts(Cx(ar0, ai0), zj, zk, aj, ak, tr, ti);
    realOut[k] := realOut[j] - tr;
    imagOut[k] := imagOut[j] - ti;
    realOut[j] := realOut[j] + tr;
    imagOut[j] := imagOut[j] + ti;
  }

  lemma BlockSteps(roots: nat -> Complex, x: seq<Complex>, m: nat, b: nat, start: nat)
    requires GoodRoots(C, roots) && |x| == Pow2(m) && b < m
    requires Aligned(start, m, b + 1) && start + Pow2(b + 1) <= Pow2(m)
    ensures BlockReady(roots(b + 1), Stage(C, roots, x, m, b), Stage(C, roots, x, m, b + 1), start, Pow2(b))
  {
    var w, h, before, after := roots(b + 1), Pow2(b), Stage(C, roots, x, m, b), Stage(C, roots, x, m, b + 1);
    forall n: nat | n < h ensures ButterflyAt(C, w, before, after, start, h, n) {
      StageStep(C, roots, x, m, b, start, n);
    }
  }

  /** One pass over all blocks: stage b becomes stage b + 1. */
  method Pass(numSamples: nat, blockSize: nat, blockEnd: nat, realOut: array<real>, imagOut: array<real>,
              cm1: real, sm1: real, cm2: real, sm2: real,
              ghost roots: nat -> Complex, ghost x: seq<Complex>, ghost m: nat, ghost b: nat)
    requires GoodRoots(C, roots) && |x| == Pow2(m) == numSamples && b < m
    requires blockEnd == Pow2(b) && blockSize == Pow2(b + 1)
    requires realOut != imagOut && numSamples <= realOut.Length && numSamples <= imagOut.Length
    requires cm1 == roots(b + 1).re && Twiddles(roots(b + 1), 0, Cx(cm1, sm1), Cx(cm2, sm2))
    requires Holds(realOut, imagOut, Stage(C, roots, x, m, b), 0, numSamples)
    modifies realOut, imagOut
    ensures Holds(realOut, imagOut, Stage(C, roots, x, m, b + 1), 0, numSamples)
    ensures realOut[numSamples..] == old(realOut[numSamples..]) && imagOut[numSamples..] == old(imagOut[numSamples..])
  {
    ghost var before, after := Stage(C, roots, x, m, b), Stage(C, roots, x, m, b + 1);
    var i := 0;
    AlignedZero(m, b + 1);
    while i < numSamples
      invariant i <= numSamples
      invariant i < numSamples ==> Aligned(i, m, b + 1)
      invariant Holds(realOut, imagOut, after, 0, i)
      invariant Holds(realOut, imagOut, before, i, numSamples)
      invariant forall p | numSamples <= p < realOut.Length :: realOut[p] == old(realOut[p])
      invariant forall p | numSamples <= p < imagOut.Length :: imagOut[p] == old(imagOut[p])
    {
      AlignedFits(i, m, b + 1);
      BlockSteps(roots, x, m, b, i);
      Block(i, blockEnd, realOut, imagOut, cm1, sm1, cm2, sm2, roots(b + 1), before, after);
      if i + blockSize < numSamples { AlignedNext(i, m, b + 1); }
      i := i + blockSize;
    }
  }

  /** The inverse transform ends by dividing everything by the number of samples. */
  method Normalise(numSamples: nat, realOut: array<real>, imagOut: array<real>)
    requires 0 < numSamples <= realOut.Length && numSamples <= imagOut.Length && realOut != imagOut
    modifies realOut, imagOut
    ensures forall i | 0 <= i < numSamples ::
              realOut[i] == old(realOut[i]) / numSamples as real && imagOut[i] == old(imagOut[i]) / numSamples as real
    ensures realOut[numSamples..] == old(realOut[numSamples..]) && imagOut[numSamples..] == old(imagOut[numSamples..])
  {
    var denom := numSamples as real;
    for i := 0 to numSamples
      invariant forall k | 0 <= k < i :: realOut[k] == old(realOut[k]) / denom && imagOut[k] == old(imagOut[k]) / denom
      invariant forall k | i <= k < realOut.Length :: realOut[k] == old(realOut[k])
      invariant forall k | i <= k < imagOut.Length :: imagOut[k] == old(imagOut[k])
      invariant forall k | numSamples <= k < realOut.Length :: realOut[k] == old(realOut[k])
      invariant forall k | numSamples <= k < imagOut.Length :: imagOut[k] == old(imagOut[k])
    {
      realOut[i] := realOut[i] / denom;
      imagOut[i] := imagOut[i] / denom;
    }
  }

  /** What the program computes: the transform, or the inverse transform, of a power-of-two input. */
  ghost function Transformed(t: Trig, inverse: bool, x: seq<Complex>): (z: seq<Complex>)
    requires |x| > 0
    ensures |z| == |x|
  {
    if inverse then InverseDft(C, x, t.Roots(true)(Log2(|x|)), Cx(1.0 / |x| as real, 0.0))
    else Dft(C, x, t.Roots(false)(Log2(|x|)))
  }

  lemma ScaleParts(z: Complex, n: real)
    requires n > 0.0
    ensures C.mul(z, Cx(1.0 / n, 0.0)) == Cx(z.re / n, z.im / n)
  {
  }

  /** The sines and cosines the recurrence of one pass starts from. */
  method StartingPoints(t: Trig, angleNumerator: real, blockSize: nat, ghost inverse: bool, ghost b: nat)
    returns (cm1: real, sm1: real, cm2: real, sm2: real)
    requires t.Good() && angleNumerator == t.Numerator(inverse) && blockSize == Pow2(b)
    ensures cm1 == t.Roots(inverse)(b).re && Twiddles(t.Roots(inverse)(b), 0, Cx(cm1, sm1), Cx(cm2, sm2))
  {
    var deltaAngle := angleNumerator / blockSize as real;
    sm2, sm1 := t.sin(-2.0 * deltaAngle), t.sin(-deltaAngle);
    cm2, cm1 := t.cos(-2.0 * deltaAngle), t.cos(-deltaAngle);
    assert deltaAngle == t.Delta(inverse, b);
    CisOpposite(t, deltaAngle);
    TwiddlesStart(t, deltaAngle);
  }

  /** All passes, from bit-reversed input to transform. */
  method Passes(t: Trig, numSamples: nat, numBits: nat, inverse: bool, realOut: array<real>, imagOut: array<real>,
                ghost x: seq<Complex>)
    requires t.Good() && |x| == numSamples == Pow2(numBits)
    requires realOut != imagOut && numSamples <= realOut.Length && numSamples <= imagOut.Length
    requires Holds(realOut, imagOut, Stage(C, t.Roots(inverse), x, numBits, 0), 0, numSamples)
    modifies realOut, imagOut
    ensures Holds(realOut, imagOut, Dft(C, x, t.Roots(inverse)(numBits)), 0, numSamples)
    ensures realOut[numSamples..] == old(realOut[numSamples..]) && imagOut[numSamples..] == old(imagOut[numSamples..])
  {
    ghost var roots, b := t.Roots(inverse), 0;
    TrigRoots(t, inverse);
    var angleNumerator := 2.0 * t.pi;
    if inverse {
      angleNumerator := -angleNumerator;
    }
    var blockEnd, blockSize := 1, 2;
    while blockSize <= numSamples
      invariant b <= numBits && blockEnd == Pow2(b) && blockSize == Pow2(b + 1)
      invariant Holds(realOut, imagOut, Stage(C, roots, x, numBits, b), 0, numSamples)
      invariant realOut[numSamples..] == old(realOut[numSamples..])
                && imagOut[numSamples..] == old(imagOut[numSamples..])
      decreases numBits - b
    {
      Pow2Monotone(numBits, b + 1);
      var cm1, sm1, cm2, sm2 := StartingPoints(t, angleNumerator, blockSize, inverse, b + 1);
      Pass(numSamples, blockSize, blockEnd, realOut, imagOut, cm1, sm1, cm2, sm2, roots, x, numBits, b);
      blockEnd, blockSize, b := blockSize, 2 * blockSize, b + 1;
    }
    Pow2Monotone(numBits, b + 1);
  }

  method FftFloat(t: Trig, numSamples: nat, inverse: bool, realIn: array<real>, imagIn: array?<real>,
                  realOut: array<real>, imagOut: array<real>)
    returns (ok: bool)
    requires t.Good()
    requires numSamples <= realIn.Length && (imagIn == null || numSamples <= imagIn.Length)
    requires numSamples <= realOut.Length && numSamples <= imagOut.Length
    requires realOut != imagOut && realIn != realOut && realIn != imagOut && imagIn != realOut && imagIn != imagOut
    modifies realOut, imagOut
    ensures ok <==> numSamples >= 2 && IsPow2(numSamples)
    ensures !ok ==> realOut[..] == old(realOut[..]) && imagOut[..] == old(imagOut[..])
    ensures ok ==> Holds(realOut, imagOut, Transformed(t, inverse, old(Input(numSamples, realIn, imagIn))), 0,
                         numSamples)
    ensures realOut[numSamples..] == old(realOut[numSamples..]) && imagOut[numSamples..] == old(imagOut[numSamples..])
  {
    ok := IsPowerOfTwo(numSamples);
    if !ok {
      return;
    }
    var numBits := NumberOfBitsNeeded(numSamples);
    Pow2Log2(numSamples);
    ghost var x, roots := Input(numSamples, realIn, imagIn), t.Roots(inverse);
    BitReversedCopy(numSamples, numBits, realIn, imagIn, realOut, imagOut);
    TrigRoots(t, inverse);
    CopyIsStageZero(roots, x, numBits, Zip(realOut[..numSamples], imagOut[..numSamples]));
    Passes(t, numSamples, numBits, inverse, realOut, imagOut, x);
    if inverse {
      ghost var z := Dft(C, x, roots(numBits));
      Normalise(numSamples, realOut, imagOut);
      forall i | 0 <= i < numSamples ensures Transformed(t, true, x)[i] == Cx(realOut[i], imagOut[i]) {
        ScaleParts(z[i], numSamples as real);
      }
    }
  }

  // ---- what the transform is for

  /** Inverse after forward is the identity, and forward after inverse too. */
  lemma TransformRoundTrip(t: Trig, x: seq<Complex>)
    requires t.Good() && IsPow2(|x|)
    ensures Transformed(t, true, Transformed(t, false, x)) == x
    ensures Transformed(t, false, Transformed(t, true, x)) == x
  {
    var m, invN := Log2(|x|), Cx(1.0 / |x| as real, 0.0);
    Pow2Log2(|x|);
    TrigInverse(t, false);
    InverseOfNat(|x|);
    InverseAfterForward(C, t.Roots(false), t.Roots(true), x, m, invN);
    ForwardAfterInverse(C, t.Roots(false), t.Roots(true), x, m, invN);
  }

  /** The sum of x[j] * w^(j*k) over the first n samples. */
  function PowerSum(x: seq<Complex>, w: Complex, k: nat, n: nat): Complex
    requires n <= |x|
  {
    if n == 0 then Cx(0.0, 0.0) else Add(PowerSum(x, w, k, n - 1), Mul(x[n - 1], C.Pow(w, (n - 1) * k)))
  }

  lemma {:induction false} SumIsPowerSum(x: seq<Complex>, w: Complex, k: nat, n: nat)
    requires n <= |x|
    ensures C.Sum(n, Term(C, x, w, k)) == PowerSum(x, w, k, n)
  {
    if n > 0 {
      SumIsPowerSum(x, w, k, n - 1);
      assert Term(C, x, w, k)(n - 1) == Mul(x[n - 1], C.Pow(w, (n - 1) * k));
    }
  }

  /** The roots with the angle written out. */
  lemma RootsWritten(t: Trig, n: nat)
    requires t.Good() && IsPow2(n)
    ensures var x := 2.0 * t.pi / n as real;
      t.Roots(false)(Log2(n)) == Cx(t.cos(x), t.sin(x)) && t.Roots(true)(Log2(n)) == Cx(t.cos(x), -t.sin(x))
  {
    Pow2Log2(n);
    OppositeRoots(t, Log2(n));
    assert t.At(2.0 * t.pi / n as real);
  }

  /** What the transform is: at k the sum of x[j] * (cos(2 pi / N) + i sin(2 pi / N))^(j*k). */
  lemma ForwardWritten(t: Trig, x: seq<Complex>, k: nat)
    requires t.Good() && IsPow2(|x|) && k < |x|
    ensures var a := 2.0 * t.pi / |x| as real;
      Transformed(t, false, x)[k] == PowerSum(x, Cx(t.cos(a), t.sin(a)), k, |x|)
  {
    var a := 2.0 * t.pi / |x| as real;
    RootsWritten(t, |x|);
    SumIsPowerSum(x, Cx(t.cos(a), t.sin(a)), k, |x|);
  }

  /** And the inverse: the sum of x[j] * (cos(2 pi / N) - i sin(2 pi / N))^(j*k), divided by N. */
  lemma InverseWritten(t: Trig, x: seq<Complex>, k: nat)
    requires t.Good() && IsPow2(|x|) && k < |x|
    ensures var a := 2.0 * t.pi / |x| as real; var sum := PowerSum(x, Cx(t.cos(a), -t.sin(a)), k, |x|);
      Transformed(t, true, x)[k] == Cx(sum.re / |x| as real, sum.im / |x| as real)
  {
    var a := 2.0 * t.pi / |x| as real;
    RootsWritten(t, |x|);
    SumIsPowerSum(x, Cx(t.cos(a), -t.sin(a)), k, |x|);
    ScaleParts(PowerSum(x, Cx(t.cos(a), -t.sin(a)), k, |x|), |x| as real);
  }

  method ElementMultiply(aR: array<real>, aI: array<real>, bR: array<real>, bI: array<real>,
                         resultR: array<real>, resultI: array<real>, size: nat)
    requires size <= aR.Length && size <= aI.Length && size <= bR.Length && size <= bI.Length
    requires size <= resultR.Length && size <= resultI.Length && resultR != resultI
    requires resultR != aR && resultR != aI && resultR != bR && resultR != bI
    requires resultI != aR && resultI != aI && resultI != bR && resultI != bI
    modifies resultR, resultI
    ensures forall i | 0 <= i < size ::
              Cx(resultR[i], resultI[i]) == Mul(Cx(aR[i], aI[i]), Cx(bR[i], bI[i]))
    ensures resultR[size..] == old(resultR[size..]) && resultI[size..] == old(resultI[size..])
  {
    for i := 0 to size
      invariant forall k | 0 <= k < i :: Cx(resultR[k], resultI[k]) == Mul(Cx(aR[k], aI[k]), Cx(bR[k], bI[k]))
      invariant resultR[size..] == old(resultR[size..]) && resultI[size..] == old(resultI[size..])
    {
      resultR[i] := aR[i] * bR[i] - aI[i] * bI[i];
      resultI[i] := aR[i] * bI[i] + aI[i] * bR[i];
    }
  }

  /** Transform, multiply, transform back is circular convolution with the inverse transform of the filter. */
  lemma TransformedConvolution(t: Trig, x: seq<Complex>, filter: seq<Complex>, product: seq<Complex>)
    requires t.Good() && |x| == |filter| == |product| && IsPow2(|x|)
    requires forall k | 0 <= k < |x| :: product[k] == Mul(Transformed(t, false, x)[k], filter[k])
    ensures Transformed(t, true, product) == Circular(C, x, Transformed(t, true, filter))
  {
    Pow2Log2(|x|);
    TrigInverse(t, false);
    InverseOfNat(|x|);
    FastConvolution(C, t.Roots(false), t.Roots(true), Log2(|x|), Cx(1.0 / |x| as real, 0.0), x, filter, product);
  }

  function Product(a: real, b: real): real { a * b }

  /** The sum of x[j] * h[(i - j) mod N] over the first n samples. */
  function RealConvolution(x: seq<real>, h: seq<real>, i: nat, n: nat): real
    requires n <= |x| && |h| > 0
  {
    if n == 0 then 0.0 else RealConvolution(x, h, i, n - 1) + Product(x[n - 1], h[(i - (n - 1)) % |h|])
  }

  /** One term of the convolution of a real sequence. */
  lemma RealTerm(x: seq<real>, z: seq<Complex>, h: seq<Complex>, i: nat, j: nat)
    requires j < |x| == |z| && |h| > 0 && z[j] == Cx(x[j], 0.0)
    ensures CircularTerm(C, z, h, i)(j).re == Product(x[j], RealParts(h)[(i - j) % |h|])
  {
    var d := (i - j) % |h|;
    assert CircularTerm(C, z, h, i)(j) == Mul(z[j], h[d]);
    assert Mul(Cx(x[j], 0.0), h[d]).re == x[j] * h[d].re;
  }

  lemma SumStep(n: nat, f: nat -> Complex)
    requires n > 0
    ensures C.Sum(n, f).re == C.Sum(n - 1, f).re + f(n - 1).re
  {
  }

  /** The real parts of a sequence. */
  function RealParts(z: seq<Complex>): (r: seq<real>)
    ensures |r| == |z| && forall i | 0 <= i < |z| :: r[i] == z[i].re
  {
    seq(|z|, i requires 0 <= i < |z| => z[i].re)
  }

  lemma {:induction false} RealSum(x: seq<real>, z: seq<Complex>, h: seq<Complex>, i: nat, n: nat)
    requires n <= |x| == |z| && |h| > 0 && forall j | 0 <= j < |x| :: z[j] == Cx(x[j], 0.0)
    ensures C.Sum(n, CircularTerm(C, z, h, i)).re == RealConvolution(x, RealParts(h), i, n)
  {
    if n > 0 {
      RealSum(x, z, h, i, n - 1);
      RealTerm(x, z, h, i, n - 1);
      SumStep(n, CircularTerm(C, z, h, i));
    }
  }

  lemma RealCircular(xs: seq<real>, z: seq<Complex>, h: seq<Complex>)
    requires |xs| == |z| && |h| > 0 && forall j | 0 <= j < |xs| :: z[j] == Cx(xs[j], 0.0)
    ensures forall i | 0 <= i < |xs| :: Circular(C, z, h)[i].re == RealConvolution(xs, RealParts(h), i, |xs|)
  {
    forall i | 0 <= i < |xs| ensures Circular(C, z, h)[i].re == RealConvolution(xs, RealParts(h), i, |xs|) {
      RealSum(xs, z, h, i, |xs|);
    }
  }

  /** Transform, multiply, transform back for a real sequence. */
  lemma Convolved(t: Trig, xs: seq<real>, input: seq<Complex>, filter: seq<Complex>, product: seq<Complex>)
    requires t.Good() && |xs| == |input| == |filter| == |product| && IsPow2(|xs|)
    requires forall j | 0 <= j < |xs| :: input[j] == Cx(xs[j], 0.0)
    requires forall k | 0 <= k < |xs| :: product[k] == Mul(Transformed(t, false, input)[k], filter[k])
    ensures forall i | 0 <= i < |xs| ::
              Transformed(t, true, product)[i].re ==
              RealConvolution(xs, RealParts(Transformed(t, true, filter)), i, |xs|)
  {
    TransformedConvolution(t, input, filter, product);
    if |xs| > 0 { RealCircular(xs, input, Transformed(t, true, filter)); }
  }

  /** x becomes its circular convolution with the real part of the inverse transform of the filter. */
  method DoFastConvolution(t: Trig, x: array<real>, hR: array<real>, hI: array<real>, size: nat) returns (ok: bool)
    requires t.Good() && size <= x.Length && size <= hR.Length && size <= hI.Length && x != hR && x != hI
    modifies x
    ensures ok <==> size >= 2 && IsPow2(size)
    ensures !ok ==> x[..] == old(x[..])
    ensures ok ==> forall i | 0 <= i < size ::
              x[i] == RealConvolution(old(x[..size]), RealParts(Transformed(t, true, Input(size, hR, hI))), i, size)
    ensures x[size..] == old(x[size..])
  {
    var xR, xI, yR, yI, outI := new real[size], new real[size], new real[size], new real[size], new real[size];
    ghost var xs, input, filter := x[..size], Input(size, x, null), Input(size, hR, hI);
    ok := FftFloat(t, size, false, x, null, xR, xI);
    if !ok {
      return;
    }
    ElementMultiply(xR, xI, hR, hI, yR, yI, size);
    ghost var product := Input(size, yR, yI);
    assert forall k | 0 <= k < size :: product[k] == Mul(Transformed(t, false, input)[k], filter[k]) by {
      assert forall k | 0 <= k < size :: Transformed(t, false, input)[k] == Cx(xR[k], xI[k]);
    }
    Convolved(t, xs, input, filter, product);
    ok := FftFloat(t, size, true, yR, yI, x, outI);
  }
}
