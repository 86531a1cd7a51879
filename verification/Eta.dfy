/**
 * The eta file on values: a product of elementary matrices, each stored as a sparse
 * column whose last entry is the pivot. Forward and backward transformation are
 * proved adjoint, linear and invertible, and a pivot is proved to do what it is for.
 */
module Eta {

  type Vector = seq<real>

  /** Multiplication under a name, so that equal factors give equal products without arithmetic. */
  function Prod(a: real, b: real): real { a * b }

  lemma ProdDistributes(a: real, b: real, c: real)
    ensures Prod(a, b + c) == Prod(a, b) + Prod(a, c)
    ensures Prod(b + c, a) == Prod(b, a) + Prod(c, a)
    ensures Prod(a, b - c) == Prod(a, b) - Prod(a, c)
    ensures Prod(b - c, a) == Prod(b, a) - Prod(c, a)
  {
  }

  lemma ProdAssociates(a: real, b: real, c: real)
    ensures Prod(a, Prod(b, c)) == Prod(Prod(a, b), c)
    ensures Prod(a, b) == Prod(b, a)
  {
  }

  datatype Entry = Entry(row: nat, value: real)

  function Pivot(e: seq<Entry>): Entry
    requires |e| > 0
  {
    e[|e| - 1]
  }

  function Front(e: seq<Entry>): seq<Entry>
    requires |e| > 0
  {
    e[..|e| - 1]
  }

  ghost predicate InRange(e: seq<Entry>, n: nat) {
    forall i | 0 <= i < |e| :: e[i].row < n
  }

  /** An eta column over rows 0 .. n - 1: its pivot row appears only in the last entry. */
  ghost predicate WellFormed(e: seq<Entry>, n: nat) {
    && |e| > 0
    && InRange(e, n)
    && (forall i | 0 <= i < |e| - 1 :: e[i].row != Pivot(e).row)
  }

  ghost predicate WellFormedFile(es: seq<seq<Entry>>, n: nat) {
    forall i | 0 <= i < |es| :: WellFormed(es[i], n)
  }

  /** v with d added at row r. */
  function AddAt(v: Vector, r: nat, d: real): (w: Vector)
    requires r < |v|
    ensures |w| == |v|
  {
    v[r := v[r] + d]
  }

  /** v with theta * value added at the row of each entry, in order. */
  function Scatter(e: seq<Entry>, theta: real, v: Vector): (w: Vector)
    requires InRange(e, |v|)
    ensures |w| == |v|
  {
    if |e| == 0 then v else AddAt(Scatter(Front(e), theta, v), Pivot(e).row, Prod(theta, Pivot(e).value))
  }

  /** Multiplication by one elementary matrix, scattering its column. */
  function Forward(e: seq<Entry>, v: Vector): (w: Vector)
    requires WellFormed(e, |v|)
    ensures |w| == |v|
  {
    var w := Scatter(Front(e), v[Pivot(e).row], v);
    w[Pivot(e).row := Prod(w[Pivot(e).row], Pivot(e).value)]
  }

  /** Multiplication by all of them, first to last. */
  function ForwardAll(es: seq<seq<Entry>>, v: Vector): (w: Vector)
    requires WellFormedFile(es, |v|)
    ensures |w| == |v|
  {
    if |es| == 0 then v else Forward(es[|es| - 1], ForwardAll(es[..|es| - 1], v))
  }

  /** The inner product of v with a sparse column. */
  function Gather(e: seq<Entry>, v: Vector): real
    requires InRange(e, |v|)
  {
    if |e| == 0 then 0.0 else Gather(Front(e), v) + Prod(v[Pivot(e).row], Pivot(e).value)
  }

  /** Multiplication by one elementary matrix from the left, gathering along its column. */
  function Backward(e: seq<Entry>, v: Vector): (w: Vector)
    requires WellFormed(e, |v|)
    ensures |w| == |v|
  {
    v[Pivot(e).row := Gather(e, v)]
  }

  /** Multiplication by all of them, last to first. */
  function BackwardAll(es: seq<seq<Entry>>, v: Vector): (w: Vector)
    requires WellFormedFile(es, |v|)
    ensures |w| == |v|
  {
    if |es| == 0 then v else BackwardAll(es[..|es| - 1], Backward(es[|es| - 1], v))
  }

  function Dot(u: Vector, v: Vector): real
    requires |u| == |v|
  {
    if |u| == 0 then 0.0 else Dot(u[..|u| - 1], v[..|v| - 1]) + Prod(u[|u| - 1], v[|v| - 1])
  }

  // ---- forward and backward transformation are adjoint

  lemma {:induction false} DotAddAt(u: Vector, v: Vector, r: nat, d: real)
    requires |u| == |v| && r < |v|
    ensures Dot(u, AddAt(v, r, d)) == Dot(u, v) + Prod(u[r], d)
    ensures Dot(AddAt(v, r, d), u) == Dot(v, u) + Prod(u[r], d)
  {
    var k := |u| - 1;
    ProdDistributes(u[r], v[r], d);
    ProdAssociates(u[r], d, 0.0);
    if r == k {
      assert AddAt(v, r, d)[..k] == v[..k];
    } else {
      assert AddAt(v, r, d)[..k] == AddAt(v[..k], r, d);
      DotAddAt(u[..k], v[..k], r, d);
    }
  }

  lemma {:induction false} DotScatter(e: seq<Entry>, theta: real, u: Vector, v: Vector)
    requires |u| == |v| && InRange(e, |v|)
    ensures Dot(u, Scatter(e, theta, v)) == Dot(u, v) + Prod(theta, Gather(e, u))
  {
    if |e| != 0 {
      var p, x := Pivot(e), u[Pivot(e).row];
      DotScatter(Front(e), theta, u, v);
      DotAddAt(u, Scatter(Front(e), theta, v), p.row, Prod(theta, p.value));
      ProdDistributes(theta, Gather(Front(e), u), Prod(x, p.value));
      ProdAssociates(theta, x, p.value);
      ProdAssociates(x, theta, p.value);
    }
  }

  lemma {:induction false} ScatterElsewhere(e: seq<Entry>, theta: real, v: Vector, r: nat)
    requires r < |v| && InRange(e, |v|) && forall i | 0 <= i < |e| :: e[i].row != r
    ensures Scatter(e, theta, v)[r] == v[r]
  {
    if |e| != 0 { ScatterElsewhere(Front(e), theta, v, r); }
  }

  lemma AdjointOne(e: seq<Entry>, u: Vector, v: Vector)
    requires |u| == |v| && WellFormed(e, |v|)
    ensures Dot(Backward(e, u), v) == Dot(u, Forward(e, v))
  {
    var r, b := Pivot(e).row, Pivot(e).value;
    var theta, g := v[r], Gather(Front(e), u);
    var w := Scatter(Front(e), theta, v);
    ScatterElsewhere(Front(e), theta, v, r);
    DotScatter(Front(e), theta, u, v);
    assert Forward(e, v) == AddAt(w, r, Prod(theta, b) - theta);
    DotAddAt(u, w, r, Prod(theta, b) - theta);
    assert Backward(e, u) == AddAt(u, r, Gather(e, u) - u[r]);
    DotAddAt(v, u, r, Gather(e, u) - u[r]);
    ProdDistributes(theta, Gather(e, u), u[r]);
    ProdDistributes(theta, g, Prod(u[r], b));
    ProdDistributes(u[r], Prod(theta, b), theta);
    ProdAssociates(theta, u[r], b);
    ProdAssociates(u[r], theta, b);
    ProdAssociates(theta, g, 0.0);
  }

  /** dot(btran(u), v) = dot(u, ftran(v)) for every eta file and all vectors. */
  lemma {:induction false} Adjoint(es: seq<seq<Entry>>, u: Vector, v: Vector)
    requires |u| == |v| && WellFormedFile(es, |v|)
    ensures Dot(BackwardAll(es, u), v) == Dot(u, ForwardAll(es, v))
  {
    if |es| != 0 {
      var k := |es| - 1;
      Adjoint(es[..k], Backward(es[k], u), v);
      AdjointOne(es[k], u, ForwardAll(es[..k], v));
    }
  }

  // ---- what a pivot does

  function Unit(n: nat, r: nat): (v: Vector)
    ensures |v| == n && forall i | 0 <= i < n :: v[i] == if i == r then 1.0 else 0.0
  {
    seq(n, i => if i == r then 1.0 else 0.0)
  }

  /** The entries condensecol stores for rows 0 .. m - 1: the non-zeros off the pivot row. */
  function NonZeros(v: Vector, r: nat, m: nat): (e: seq<Entry>)
    requires m <= |v|
    ensures |e| <= m && forall i | 0 <= i < |e| :: e[i].row < m && e[i].row != r
  {
    if m == 0 then []
    else if m - 1 != r && v[m - 1] != 0.0 then NonZeros(v, r, m - 1) + [Entry(m - 1, v[m - 1])]
    else NonZeros(v, r, m - 1)
  }

  function Condensed(v: Vector, r: nat): (e: seq<Entry>)
    requires r < |v|
    ensures WellFormed(e, |v|)
  {
    NonZeros(v, r, |v|) + [Entry(r, v[r])]
  }

  function ScaledBy(e: seq<Entry>, t: real): (f: seq<Entry>)
    ensures |f| == |e| && forall i | 0 <= i < |e| :: f[i] == Entry(e[i].row, Prod(e[i].value, t))
  {
    seq(|e|, i requires 0 <= i < |e| => Entry(e[i].row, Prod(e[i].value, t)))
  }

  /** What addetacol makes of a condensed column: pivot inverted, the rest divided by minus the pivot. */
  function Inverted(e: seq<Entry>, n: nat): (f: seq<Entry>)
    requires WellFormed(e, n) && Pivot(e).value != 0.0
    ensures WellFormed(f, n)
  {
    var theta := 1.0 / Pivot(e).value;
    ScaledBy(Front(e), -theta) + [Entry(Pivot(e).row, theta)]
  }

  /** Scattering the non-zeros of v is adding a multiple of v off the pivot row. */
  lemma ScatterSnoc(e: seq<Entry>, x: Entry, longer: seq<Entry>, c: real, theta: real, w: Vector, i: nat)
    requires longer == e + [x] && InRange(longer, |w|) && InRange(e, |w|) && i < |w|
    ensures InRange(ScaledBy(longer, c), |w|) && InRange(ScaledBy(e, c), |w|)
    ensures Scatter(ScaledBy(longer, c), theta, w)[i] ==
            if i == x.row then Scatter(ScaledBy(e, c), theta, w)[i] + Prod(theta, Prod(x.value, c))
            else Scatter(ScaledBy(e, c), theta, w)[i]
  {
    var all := ScaledBy(longer, c);
    assert Front(all) == ScaledBy(e, c);
    assert Pivot(all) == Entry(x.row, Prod(x.value, c));
  }

  lemma NothingAdded(theta: real, c: real)
    ensures Prod(theta, Prod(0.0, c)) == 0.0
  {
    assert Prod(0.0, c) == 0.0;
  }

  /** Row k's entry is put behind fewer, unless it is the pivot row's or zero. */
  lemma ScatterRow(all: seq<Entry>, fewer: seq<Entry>, v: Vector, r: nat, k: nat, c: real, theta: real, w: Vector,
                   i: nat)
    requires k < |v| == |w| && i < |v| && InRange(all, |w|) && InRange(fewer, |w|)
    requires all == if k != r && v[k] != 0.0 then fewer + [Entry(k, v[k])] else fewer
    ensures Scatter(ScaledBy(all, c), theta, w)[i] ==
            Scatter(ScaledBy(fewer, c), theta, w)[i] + if i == k && i != r then Prod(theta, Prod(v[i], c)) else 0.0
  {
    if k != r && v[k] != 0.0 {
      ScatterSnoc(fewer, Entry(k, v[k]), all, c, theta, w, i);
    } else {
      NothingAdded(theta, c);
    }
  }

  lemma {:induction false} ScatterNonZeros(v: Vector, r: nat, m: nat, c: real, theta: real, w: Vector, i: nat)
    requires r < |v| == |w| && m <= |v| && i < |v|
    ensures Scatter(ScaledBy(NonZeros(v, r, m), c), theta, w)[i] ==
            if i < m && i != r then w[i] + Prod(theta, Prod(v[i], c)) else w[i]
  {
    if m == 0 {
      assert ScaledBy([], c) == [];
    } else {
      ScatterNonZeros(v, r, m - 1, c, theta, w, i);
      ScatterRow(NonZeros(v, r, m), NonZeros(v, r, m - 1), v, r, m - 1, c, theta, w, i);
    }
  }

  /** The new eta applied to any vector: eliminate with the pivot column. */
  lemma ForwardPivot(v: Vector, r: nat, w: Vector, i: nat)
    requires r < |v| == |w| && v[r] != 0.0 && i < |v|
    ensures Forward(Inverted(Condensed(v, r), |v|), w)[i] ==
            if i == r then w[r] / v[r] else w[i] - Prod(v[i], w[r] / v[r])
  {
    var raw, theta := NonZeros(v, r, |v|), 1.0 / v[r];
    var e := Inverted(Condensed(v, r), |v|);
    assert Front(Condensed(v, r)) == raw;
    assert Front(e) == ScaledBy(raw, -theta);
    ScatterNonZeros(v, r, |v|, -theta, w[r], w, i);
    PivotArithmetic(w[r], v[r], v[i]);
  }

  lemma PivotArithmetic(x: real, p: real, b: real)
    requires p != 0.0
    ensures Prod(x, 1.0 / p) == x / p
    ensures Prod(x, Prod(b, -(1.0 / p))) == -Prod(b, x / p)
  {
  }

  /** A pivot on the transformed column sends that column to the unit vector of its row. */
  lemma PivotColumnToUnit(v: Vector, r: nat)
    requires r < |v| && v[r] != 0.0
    ensures Forward(Inverted(Condensed(v, r), |v|), v) == Unit(|v|, r)
  {
    forall i | 0 <= i < |v| ensures Forward(Inverted(Condensed(v, r), |v|), v)[i] == Unit(|v|, r)[i] {
      ForwardPivot(v, r, v, i);
      assert v[r] / v[r] == 1.0;
    }
  }

  /** A pivot on row r leaves the unit vectors of the other rows alone. */
  lemma PivotKeepsUnit(v: Vector, r: nat, q: nat)
    requires r < |v| && v[r] != 0.0 && q != r
    ensures Forward(Inverted(Condensed(v, r), |v|), Unit(|v|, q)) == Unit(|v|, q)
  {
    var u := Unit(|v|, q);
    forall i | 0 <= i < |v| ensures Forward(Inverted(Condensed(v, r), |v|), u)[i] == u[i] {
      ForwardPivot(v, r, u, i);
      assert 0.0 / v[r] == 0.0;
    }
  }

  // ---- linearity and injectivity

  /** u + t * v */
  function PlusTimes(u: Vector, t: real, v: Vector): (w: Vector)
    requires |u| == |v|
    ensures |w| == |u| && forall i | 0 <= i < |u| :: w[i] == u[i] + Prod(t, v[i])
  {
    seq(|u|, i requires 0 <= i < |u| => u[i] + Prod(t, v[i]))
  }

  lemma {:induction false} ScatterLinear(e: seq<Entry>, t: real, a: real, u: Vector, b: real, v: Vector, i: nat)
    requires |u| == |v| && i < |u| && InRange(e, |v|)
    ensures Scatter(e, a + Prod(t, b), PlusTimes(u, t, v))[i] == Scatter(e, a, u)[i] + Prod(t, Scatter(e, b, v)[i])
  {
    if |e| != 0 {
      var c, x := Pivot(e).value, Scatter(Front(e), b, v)[i];
      ScatterLinear(Front(e), t, a, u, b, v, i);
      ProdDistributes(c, a, Prod(t, b));
      ProdAssociates(t, b, c);
      ProdDistributes(t, x, Prod(b, c));
    }
  }

  lemma ForwardLinear(e: seq<Entry>, t: real, u: Vector, v: Vector)
    requires |u| == |v| && WellFormed(e, |v|)
    ensures Forward(e, PlusTimes(u, t, v)) == PlusTimes(Forward(e, u), t, Forward(e, v))
  {
    var r, c := Pivot(e).row, Pivot(e).value;
    forall i | 0 <= i < |u| ensures Forward(e, PlusTimes(u, t, v))[i] == PlusTimes(Forward(e, u), t, Forward(e, v))[i] {
      ScatterLinear(Front(e), t, u[r], u, v[r], v, i);
      var x, y := Scatter(Front(e), u[r], u)[i], Scatter(Front(e), v[r], v)[i];
      ProdDistributes(c, x, Prod(t, y));
      ProdAssociates(t, y, c);
    }
  }

  /** ftran(u + t * v) = ftran(u) + t * ftran(v) */
  lemma {:induction false} ForwardAllLinear(es: seq<seq<Entry>>, t: real, u: Vector, v: Vector)
    requires |u| == |v| && WellFormedFile(es, |v|)
    ensures ForwardAll(es, PlusTimes(u, t, v)) == PlusTimes(ForwardAll(es, u), t, ForwardAll(es, v))
  {
    if |es| != 0 {
      var k := |es| - 1;
      ForwardAllLinear(es[..k], t, u, v);
      ForwardLinear(es[k], t, ForwardAll(es[..k], u), ForwardAll(es[..k], v));
    }
  }

  /** Two vectors that agree on the pivot row receive the same changes elsewhere. */
  lemma {:induction false} ScatterDifference(e: seq<Entry>, theta: real, u: Vector, v: Vector, i: nat)
    requires |u| == |v| && i < |u| && InRange(e, |v|)
    ensures Scatter(e, theta, u)[i] - u[i] == Scatter(e, theta, v)[i] - v[i]
  {
    if |e| != 0 { ScatterDifference(Front(e), theta, u, v, i); }
  }

  lemma ForwardInjective(e: seq<Entry>, u: Vector, v: Vector)
    requires |u| == |v| && WellFormed(e, |v|) && Pivot(e).value != 0.0
    requires Forward(e, u) == Forward(e, v)
    ensures u == v
  {
    var r := Pivot(e).row;
    ScatterElsewhere(Front(e), u[r], u, r);
    ScatterElsewhere(Front(e), v[r], v, r);
    assert Forward(e, u)[r] == Prod(u[r], Pivot(e).value) && Forward(e, v)[r] == Prod(v[r], Pivot(e).value);
    Cancel(u[r], v[r], Pivot(e).value);
    forall i | 0 <= i < |u| ensures u[i] == v[i] {
      ScatterDifference(Front(e), u[r], u, v, i);
      if i != r { assert Forward(e, u)[i] == Forward(e, v)[i]; }
    }
  }

  lemma Cancel(a: real, b: real, c: real)
    requires Prod(a, c) == Prod(b, c) && c != 0.0
    ensures a == b
  {
  }

  ghost predicate NonZeroPivots(es: seq<seq<Entry>>) {
    forall i | 0 <= i < |es| :: |es[i]| > 0 && Pivot(es[i]).value != 0.0
  }

  /** ftran loses nothing: equal images come from equal vectors. */
  lemma {:induction false} ForwardAllInjective(es: seq<seq<Entry>>, u: Vector, v: Vector)
    requires |u| == |v| && WellFormedFile(es, |v|) && NonZeroPivots(es)
    requires ForwardAll(es, u) == ForwardAll(es, v)
    ensures u == v
  {
    if |es| != 0 {
      var k := |es| - 1;
      ForwardInjective(es[k], ForwardAll(es[..k], u), ForwardAll(es[..k], v));
      ForwardAllInjective(es[..k], u, v);
    }
  }
}
