/**
 * The basis of lp_solve's simplex: right-hand side, basic variables and eta file,
 * kept consistent by every pivot.
 */
module BasisInverse {
  import opened Eta
  import opened EtaFiles

  /** Entries assigned in order into v, times f. */
  function Load(e: seq<Entry>, f: real, v: Vector): (w: Vector)
    requires InRange(e, |v|)
    ensures |w| == |v|
  {
    if |e| == 0 then v else Load(Front(e), f, v)[Pivot(e).row := Prod(Pivot(e).value, f)]
  }

  /** x[0] * cols[0] + ... + x[k - 1] * cols[k - 1] */
  function Combination(x: Vector, cols: seq<Vector>, k: nat, n: nat): (v: Vector)
    requires k <= |x| && k <= |cols| && forall i | 0 <= i < |cols| :: |cols[i]| == n
    ensures |v| == n
  {
    if k == 0 then Zeros(n) else PlusTimes(Combination(x, cols, k - 1, n), x[k - 1], cols[k - 1])
  }

  function Zeros(n: nat): (v: Vector)
    ensures |v| == n && forall i | 0 <= i < n :: v[i] == 0.0
  {
    seq(n, _ => 0.0)
  }

  lemma {:induction false} ForwardAllZeros(es: seq<seq<Entry>>, n: nat)
    requires WellFormedFile(es, n)
    ensures ForwardAll(es, Zeros(n)) == Zeros(n)
  {
    if |es| != 0 {
      var e := es[|es| - 1];
      ForwardAllZeros(es[..|es| - 1], n);
      ScatterZero(Front(e), Zeros(n));
      assert Prod(0.0, Pivot(e).value) == 0.0;
      assert Forward(e, Zeros(n)) == Zeros(n);
    }
  }

  /** If ftran sends each column to its unit vector, it sends their combination to the coefficients. */
  lemma {:induction false} CombinationImage(es: seq<seq<Entry>>, x: Vector, cols: seq<Vector>, k: nat)
    requires k <= |x| == |cols| && WellFormedFile(es, |x|)
    requires forall i | 0 <= i < |cols| :: |cols[i]| == |x| && ForwardAll(es, cols[i]) == Unit(|x|, i)
    ensures ForwardAll(es, Combination(x, cols, k, |x|)) == x[..k] + Zeros(|x| - k)
  {
    var n := |x|;
    if k == 0 {
      ForwardAllZeros(es, n);
    } else {
      CombinationImage(es, x, cols, k - 1);
      ForwardAllLinear(es, x[k - 1], Combination(x, cols, k - 1, n), cols[k - 1]);
      var w := PlusTimes(x[..k - 1] + Zeros(n - k + 1), x[k - 1], Unit(n, k - 1));
      assert Prod(x[k - 1], 1.0) == x[k - 1] && Prod(x[k - 1], 0.0) == 0.0;
      assert w == x[..k] + Zeros(n - k);
    }
  }

  /** The transformed right-hand side solves the linear system: combining the columns with it gives b. */
  lemma BasicSolution(es: seq<seq<Entry>>, cols: seq<Vector>, b: Vector)
    requires WellFormedFile(es, |b|) && NonZeroPivots(es) && |cols| == |b|
    requires forall i | 0 <= i < |cols| :: |cols[i]| == |b| && ForwardAll(es, cols[i]) == Unit(|b|, i)
    ensures Combination(ForwardAll(es, b), cols, |b|, |b|) == b
  {
    var x := ForwardAll(es, b);
    CombinationImage(es, x, cols, |b|);
    assert x[..|b|] + Zeros(0) == x;
    ForwardAllInjective(es, Combination(x, cols, |b|, |b|), b);
  }

  lemma ScaledByOne(e: seq<Entry>)
    ensures ScaledBy(e, 1.0) == e
  {
  }

  lemma RhsEntry(theta: real, x: real)
    ensures Prod(-theta, Prod(x, 1.0)) == -Prod(x, theta)
  {
  }

  /** Scattering a condensed column is subtracting a multiple of it off the pivot row. */
  lemma ScatterCondensed(v: Vector, r: nat, theta: real, b: Vector, i: nat)
    requires r < |v| == |b| && i < |v| && i != r
    ensures Scatter(Condensed(v, r), -theta, b)[i] == b[i] - Prod(v[i], theta)
  {
    var e, raw := Condensed(v, r), NonZeros(v, r, |v|);
    assert Front(e) == raw;
    ScaledByOne(raw);
    ScatterNonZeros(v, r, |v|, 1.0, -theta, b, i);
    RhsEntry(theta, v[i]);
  }

  /** Eliminating with the raw pivot column and storing theta is what the finished eta column does. */
  lemma RhsByPivot(v: Vector, r: nat, theta: real, b: Vector)
    requires r < |v| == |b| && v[r] != 0.0 && theta == b[r] / v[r]
    ensures Scatter(Condensed(v, r), -theta, b)[r := theta] == Forward(Inverted(Condensed(v, r), |v|), b)
  {
    var left, right := Scatter(Condensed(v, r), -theta, b)[r := theta], Forward(Inverted(Condensed(v, r), |v|), b);
    forall i | 0 <= i < |v| ensures left[i] == right[i] {
      ForwardPivot(v, r, b, i);
      if i != r { ScatterCondensed(v, r, theta, b, i); }
    }
  }

  /** e is column v condensed with pivot row r, and f the eta column made of it. */
  ghost predicate EtaOf(v: Vector, r: nat, e: seq<Entry>, f: seq<Entry>) {
    forall u: nat :: EtaOfAt(u, v, r, e, f)
  }

  ghost predicate EtaOfAt(unused: nat, v: Vector, r: nat, e: seq<Entry>, f: seq<Entry>) {
    r < |v| && v[r] != 0.0 && e == Condensed(v, r) && f == Inverted(e, |v|)
  }

  lemma EtaIs(v: Vector, r: nat, e: seq<Entry>, f: seq<Entry>)
    requires r < |v| && v[r] != 0.0 && e == Condensed(v, r) && f == Inverted(e, |v|)
    ensures EtaOf(v, r, e, f)
  {
    forall u: nat ensures EtaOfAt(u, v, r, e, f) { }
  }

  /** The constraint matrix, stored by columns: column j is entries[colEnd[j - 1]..colEnd[j]]. */
  datatype Matrix = Matrix(rows: nat, columns: nat, extrad: real, entries: seq<Entry>, colEnd: seq<nat>) {

    ghost predicate Valid() {
      && |colEnd| == columns + 1
      && (forall i, j | 0 <= i <= j <= columns :: colEnd[i] <= colEnd[j] <= |entries|)
      && InRange(entries, rows + 1)
    }

    /** The column of a variable; slacks are unit columns, and coming from the upper bound turns the sign. */
    ghost function ColumnOf(lower: bool, varin: nat): (v: Vector)
      requires Valid() && varin <= rows + columns
      ensures |v| == rows + 1
    {
      var f := if lower then 1.0 else -1.0;
      if varin > rows then
        var v := Load(entries[colEnd[varin - rows - 1]..colEnd[varin - rows]], f, Zeros(rows + 1));
        v[0 := v[0] - Prod(extrad, f)]
      else
        Zeros(rows + 1)[varin := f]
    }

    /** The columns of the basic variables, row 0 belonging to the objective. */
    ghost function BasisColumns(bs: seq<nat>, sides: seq<bool>): (cs: seq<Vector>)
      requires Valid() && |bs| == |sides| && forall q | 0 <= q < |bs| :: bs[q] <= rows + columns
      ensures |cs| == |bs|
      ensures forall q | 0 <= q < |bs| :: cs[q] == if q == 0 then Unit(rows + 1, 0) else ColumnOf(sides[q], bs[q])
    {
      seq(|bs|, q requires 0 <= q < |bs| => if q == 0 then Unit(rows + 1, 0) else ColumnOf(sides[q], bs[q]))
    }
  }

  /** The value stored for row i, the last one if there are several, 0 if there is none. */
  function Stored(e: seq<Entry>, i: nat): real {
    if |e| == 0 then 0.0 else if Pivot(e).row == i then Pivot(e).value else Stored(Front(e), i)
  }

  lemma {:induction false} LoadStored(e: seq<Entry>, f: real, n: nat, i: nat)
    requires InRange(e, n) && i < n
    ensures Load(e, f, Zeros(n))[i] == Prod(Stored(e, i), f)
  {
    if |e| > 0 { LoadStored(Front(e), f, n, i); }
  }

  /**
   * A variable's column: for a slack the unit column of its row, otherwise what is stored, less extrad in
   * the objective row; all of it negated for a variable that comes from its upper bound.
   */
  lemma ColumnMeans(m: Matrix, lower: bool, varin: nat, i: nat)
    requires m.Valid() && varin <= m.rows + m.columns && i <= m.rows
    ensures var value :=
        if varin <= m.rows then (if i == varin then 1.0 else 0.0)
        else Stored(m.entries[m.colEnd[varin - m.rows - 1]..m.colEnd[varin - m.rows]], i) -
             (if i == 0 then m.extrad else 0.0);
      m.ColumnOf(lower, varin)[i] == if lower then value else -value
  {
    if varin > m.rows {
      var e := m.entries[m.colEnd[varin - m.rows - 1]..m.colEnd[varin - m.rows]];
      var f := if lower then 1.0 else -1.0;
      LoadStored(e, f, m.rows + 1, i);
      TimesSign(Stored(e, i), f);
      TimesSign(m.extrad, f);
    }
  }

  lemma TimesSign(x: real, f: real)
    requires f == 1.0 || f == -1.0
    ensures Prod(x, f) == if f == 1.0 then x else -x
  {
  }

  /** Each row has its own variable, row 0 that of the objective, and marks are true for exactly those. */
  ghost predicate BasisOk(bs: seq<nat>, marks: seq<bool>) {
    && |bs| > 0
    && (forall q | 0 <= q < |bs| :: bs[q] < |marks|)
    && forall u: nat :: BasisAt(u, bs, marks)
  }

  ghost predicate BasisAt(unused: nat, bs: seq<nat>, marks: seq<bool>) {
    && |bs| > 0 && bs[0] == 0
    && (forall p, q | 0 <= p < q < |bs| :: bs[p] != bs[q])
    && (forall v | 0 <= v < |marks| :: marks[v] <==> v in bs)
  }

  lemma BasisStep(bs: seq<nat>, marks: seq<bool>, r: nat, varin: nat)
    requires BasisOk(bs, marks) && 0 < r < |bs| && varin < |marks| && !marks[varin]
    ensures BasisOk(bs[r := varin], marks[bs[r] := false][varin := true])
  {
    var bs', marks' := bs[r := varin], marks[bs[r] := false][varin := true];
    assert BasisAt(0, bs, marks);
    assert bs'[r] == varin;
    forall v | 0 <= v < |marks| ensures marks'[v] <==> v in bs' {
      if v in bs && v != bs[r] {
        var q :| 0 <= q < |bs| && bs[q] == v;
        assert bs'[q] == v;
      }
    }
    forall u: nat ensures BasisAt(u, bs', marks') { }
  }

  ghost predicate Solved(es: seq<seq<Entry>>, c: Vector, n: nat, q: nat) {
    |c| == n && WellFormedFile(es, n) && ForwardAll(es, c) == Unit(n, q)
  }

  /** The product of the etas inverts the basis columns cs, and carries the right-hand side b0 to b. */
  ghost predicate Inverts(n: nat, es: seq<seq<Entry>>, cs: seq<Vector>, b0: Vector, b: Vector) {
    && |cs| == |b0| == |b| == n
    && WellFormedFile(es, n)
    && forall u: nat :: InvertsAt(u, n, es, cs, b0, b)
  }

  /** The heart of it. (The unused parameter keeps it folded until a proof names it.) */
  ghost predicate InvertsAt(unused: nat, n: nat, es: seq<seq<Entry>>, cs: seq<Vector>, b0: Vector, b: Vector)
    requires |cs| == |b0| == n && WellFormedFile(es, n)
  {
    && NonZeroPivots(es)
    && (forall q | 0 <= q < n :: Solved(es, cs[q], n, q))
    && b == ForwardAll(es, b0)
  }

  lemma InvertsStep(n: nat, es: seq<seq<Entry>>, cs: seq<Vector>, b0: Vector, b: Vector, r: nat, col: Vector)
    requires Inverts(n, es, cs, b0, b) && 0 < r < n && |col| == n
    requires ForwardAll(es, col)[r] != 0.0
    ensures var v := ForwardAll(es, col);
            var e := Inverted(Condensed(v, r), n);
            Inverts(n, es + [e], cs[r := col], b0, Forward(e, b))
  {
    assert InvertsAt(0, n, es, cs, b0, b);
    var v := ForwardAll(es, col);
    var e := Inverted(Condensed(v, r), n);
    var es', cs', b' := es + [e], cs[r := col], Forward(e, b);
    assert es'[..|es|] == es;
    assert 1.0 / v[r] != 0.0;
    forall q | 0 <= q < n ensures Solved(es', cs'[q], n, q) {
      assert ForwardAll(es', cs'[q]) == Forward(e, ForwardAll(es, cs'[q]));
      if q == r {
        PivotColumnToUnit(v, r);
      } else {
        assert Solved(es, cs[q], n, q);
        PivotKeepsUnit(v, r, q);
      }
    }
    assert ForwardAll(es', b0) == Forward(e, b);
    forall u: nat ensures InvertsAt(u, n, es', cs', b0, b') { }
  }

  /** cs are the columns of the basic variables bs, and the etas invert them. */
  ghost predicate Represents(m: Matrix, bs: seq<nat>, sides: seq<bool>, cs: seq<Vector>, es: seq<seq<Entry>>,
                             b0: Vector, b: Vector)
  {
    forall u: nat :: RepresentsAt(u, m, bs, sides, cs, es, b0, b)
  }

  ghost predicate RepresentsAt(unused: nat, m: Matrix, bs: seq<nat>, sides: seq<bool>, cs: seq<Vector>,
                               es: seq<seq<Entry>>, b0: Vector, b: Vector) {
    && m.Valid() && |bs| == |sides| && (forall q | 0 <= q < |bs| :: bs[q] <= m.rows + m.columns)
    && cs == m.BasisColumns(bs, sides)
    && Inverts(m.rows + 1, es, cs, b0, b)
  }

  /**
   * ftran sends every basic variable's column to the unit vector of its row, and the basic solution solves
   * the system.
   */
  lemma RepresentsSolves(m: Matrix, bs: seq<nat>, sides: seq<bool>, cs: seq<Vector>, es: seq<seq<Entry>>, b0: Vector,
                         b: Vector)
    requires Represents(m, bs, sides, cs, es, b0, b)
    requires m.Valid() && |bs| == |sides| && forall q | 0 <= q < |bs| :: bs[q] <= m.rows + m.columns
    ensures |bs| == |b0| == |b| == m.rows + 1 && WellFormedFile(es, m.rows + 1)
    ensures b == ForwardAll(es, b0)
    ensures forall q | 0 < q <= m.rows :: ForwardAll(es, m.ColumnOf(sides[q], bs[q])) == Unit(m.rows + 1, q)
    ensures Combination(b, m.BasisColumns(bs, sides), m.rows + 1, m.rows + 1) == b0
  {
    var n := m.rows + 1;
    assert RepresentsAt(0, m, bs, sides, cs, es, b0, b);
    assert InvertsAt(0, n, es, cs, b0, b);
    forall q | 0 <= q < n ensures |cs[q]| == n && ForwardAll(es, cs[q]) == Unit(n, q) {
      assert Solved(es, cs[q], n, q);
    }
    BasicSolution(es, cs, b0);
  }

  function Identity(n: nat): (s: seq<nat>)
    ensures |s| == n && forall i | 0 <= i < n :: s[i] == i
  {
    seq(n, i => i)
  }

  function AllTrue(n: nat): (s: seq<bool>)
    ensures |s| == n && forall i | 0 <= i < n :: s[i]
  {
    seq(n, _ => true)
  }

  /** The slack basis needs no etas. */
  lemma SlackBasis(m: Matrix, rh: Vector, marks: seq<bool>)
    requires m.Valid() && |rh| == m.rows + 1 && |marks| == m.rows + m.columns + 1
    requires forall v | 0 <= v < |marks| :: marks[v] <==> v <= m.rows
    ensures BasisOk(Identity(m.rows + 1), marks)
    ensures var bs, sides := Identity(m.rows + 1), AllTrue(m.rows + 1);
            Represents(m, bs, sides, m.BasisColumns(bs, sides), [], rh, rh)
  {
    var n := m.rows + 1;
    var bs := Identity(n);
    var cs := m.BasisColumns(bs, AllTrue(n));
    forall v | 0 <= v <= m.rows ensures v in bs { assert bs[v] == v; }
    forall u: nat ensures BasisAt(u, bs, marks) { }
    forall q | 0 <= q < n ensures Solved([], cs[q], n, q) {
      assert q > 0 ==> m.ColumnOf(true, q) == Unit(n, q);
    }
    forall u: nat ensures InvertsAt(u, n, [], cs, rh, rh) { }
    forall u: nat ensures RepresentsAt(u, m, bs, AllTrue(n), cs, [], rh, rh) { }
  }

  lemma BasisColumnsUpdate(m: Matrix, bs: seq<nat>, sides: seq<bool>, r: nat, varin: nat, lower: bool)
    requires m.Valid() && |bs| == |sides| && forall q | 0 <= q < |bs| :: bs[q] <= m.rows + m.columns
    requires 0 < r < |bs| && varin <= m.rows + m.columns
    ensures m.BasisColumns(bs[r := varin], sides[r := lower]) ==
            m.BasisColumns(bs, sides)[r := m.ColumnOf(lower, varin)]
  {
  }

  lemma RepresentsParts(m: Matrix, bs: seq<nat>, sides: seq<bool>, cs: seq<Vector>, es: seq<seq<Entry>>, b0: Vector,
                        b: Vector)
    requires Represents(m, bs, sides, cs, es, b0, b)
    ensures m.Valid() && |bs| == |sides| && (forall q | 0 <= q < |bs| :: bs[q] <= m.rows + m.columns)
    ensures cs == m.BasisColumns(bs, sides) && Inverts(m.rows + 1, es, cs, b0, b)
  {
    assert RepresentsAt(0, m, bs, sides, cs, es, b0, b);
  }

  lemma RepresentsIs(m: Matrix, bs: seq<nat>, sides: seq<bool>, cs: seq<Vector>, es: seq<seq<Entry>>, b0: Vector,
                     b: Vector)
    requires m.Valid() && |bs| == |sides| && forall q | 0 <= q < |bs| :: bs[q] <= m.rows + m.columns
    requires cs == m.BasisColumns(bs, sides) && Inverts(m.rows + 1, es, cs, b0, b)
    ensures Represents(m, bs, sides, cs, es, b0, b)
  {
    forall u: nat ensures RepresentsAt(u, m, bs, sides, cs, es, b0, b) { }
  }

  /** One pivot on values: the basis stays a basis and the etas still invert it. */
  lemma PivotKeeps(m: Matrix, es: seq<seq<Entry>>, bs: seq<nat>, marks: seq<bool>, sides: seq<bool>, cs: seq<Vector>,
                   b0: Vector, b: Vector, lower: bool, varin: nat, r: nat, v: Vector,
                   e: seq<Entry>, es': seq<seq<Entry>>, bs': seq<nat>, marks': seq<bool>, sides': seq<bool>, b': Vector)
    returns (cs': seq<Vector>)
    requires m.Valid() && |bs| == |sides| == m.rows + 1 && |marks| == m.rows + m.columns + 1
    requires BasisOk(bs, marks) && Represents(m, bs, sides, cs, es, b0, b) && WellFormedFile(es, m.rows + 1)
             && |b| == m.rows + 1
    requires 0 < r <= m.rows && varin < |marks| && !marks[varin]
    requires v == ForwardAll(es, m.ColumnOf(lower, varin)) && v[r] != 0.0
    requires e == Inverted(Condensed(v, r), m.rows + 1)
    requires es' == es + [e] && bs' == bs[r := varin] && sides' == sides[r := lower]
    requires marks' == marks[bs[r] := false][varin := true] && b' == Forward(e, b)
    ensures BasisOk(bs', marks') && Represents(m, bs', sides', cs', es', b0, b')
  {
    RepresentsParts(m, bs, sides, cs, es, b0, b);
    BasisStep(bs, marks, r, varin);
    InvertsStep(m.rows + 1, es, cs, b0, b, r, m.ColumnOf(lower, varin));
    BasisColumnsUpdate(m, bs, sides, r, varin, lower);
    cs' := cs[r := m.ColumnOf(lower, varin)];
    RepresentsIs(m, bs', sides', cs', es', b0, b');
  }

  /** What the basis, the free rows and the flags look like at one moment. */
  datatype Snapshot = Snapshot(bs: seq<nat>, marks: seq<bool>, sides: seq<bool>, frow: seq<bool>, fcol: seq<bool>) {

    ghost predicate Shaped(n: nat, columns: nat) {
      && |bs| == |sides| == |frow| == n && |fcol| == columns && |marks| == n + columns
      && forall q | 0 <= q < n :: bs[q] < |marks|
    }

    /** Column j has entered at row r. */
    ghost function Entered(n: nat, columns: nat, j: nat, r: nat, lower: bool): Snapshot
      requires Shaped(n, columns) && j < columns && r < n
    {
      Snapshot(bs[r := n + j], marks[bs[r] := false][n + j := true], sides[r := lower], frow[r := false],
               fcol[j := false])
    }
  }

  ghost predicate Ready(n: nat, columns: nat, a: Snapshot) {
    a.Shaped(n, columns) && BasisOk(a.bs, a.marks) && forall i | 0 <= i < columns && a.fcol[i] :: !a.marks[n + i]
  }

  /**
   * The flagged columns before j are in the basis, at rows that were free and on the side they came from,
   * and nothing else has changed.
   */
  ghost predicate Progress(n: nat, columns: nat, lower: seq<bool>, j: nat, a: Snapshot, b: Snapshot) {
    forall u: nat :: ProgressAt(u, n, columns, lower, j, a, b)
  }

  ghost predicate ProgressAt(unused: nat, n: nat, columns: nat, lower: seq<bool>, j: nat, a: Snapshot, b: Snapshot) {
    && j <= columns && Ready(n, columns, a) && b.Shaped(n, columns) && |lower| == n + columns
    && (forall i | 0 <= i < columns :: b.fcol[i] == (a.fcol[i] && i >= j))
    && (forall i | 0 <= i < columns && a.fcol[i] :: b.marks[n + i] <==> i < j)
    && forall q: nat | q < n :: RowAt(n, columns, lower, j, a, b, q)
  }

  /** Row q has its variable still, or, if it was free, one of the columns that have entered. */
  ghost predicate RowAt(n: nat, columns: nat, lower: seq<bool>, j: nat, a: Snapshot, b: Snapshot, q: nat)
    requires a.Shaped(n, columns) && b.Shaped(n, columns) && |lower| == n + columns && q < n && j <= columns
  {
    if a.frow[q] && !b.frow[q] then
      n <= b.bs[q] < n + j && a.fcol[b.bs[q] - n] && b.sides[q] == lower[b.bs[q]]
    else
      a.frow[q] == b.frow[q] && b.bs[q] == a.bs[q] && b.sides[q] == a.sides[q]
  }

  lemma ProgressBegins(n: nat, columns: nat, lower: seq<bool>, a: Snapshot)
    requires Ready(n, columns, a) && |lower| == n + columns
    ensures Progress(n, columns, lower, 0, a, a)
  {
    forall u: nat ensures ProgressAt(u, n, columns, lower, 0, a, a) { }
  }

  lemma ProgressFacts(n: nat, columns: nat, lower: seq<bool>, j: nat, a: Snapshot, b: Snapshot)
    requires Progress(n, columns, lower, j, a, b) && j < columns
    ensures b.Shaped(n, columns) && |a.fcol| == columns && b.fcol[j] == a.fcol[j] && (b.fcol[j] ==> !b.marks[n + j])
  {
    assert ProgressAt(0, n, columns, lower, j, a, b);
  }

  lemma ProgressSkips(n: nat, columns: nat, lower: seq<bool>, j: nat, a: Snapshot, b: Snapshot, k: nat)
    requires Progress(n, columns, lower, j, a, b) && j < columns && b.Shaped(n, columns) && !b.fcol[j] && k == j + 1
    ensures Progress(n, columns, lower, k, a, b)
  {
    assert ProgressAt(0, n, columns, lower, j, a, b);
    forall q: nat | q < n ensures RowAt(n, columns, lower, k, a, b, q) { assert RowAt(n, columns, lower, j, a, b, q); }
    forall u: nat ensures ProgressAt(u, n, columns, lower, k, a, b) { }
  }

  /** Column j enters at the free row r. */
  lemma ProgressStep(n: nat, columns: nat, lower: seq<bool>, j: nat, a: Snapshot, b: Snapshot, r: nat, k: nat,
                     c: Snapshot)
    requires Progress(n, columns, lower, j, a, b) && j < columns && b.Shaped(n, columns) && b.fcol[j] && r < n
             && b.frow[r] && |lower| == n + columns
    requires k == j + 1 && c == b.Entered(n, columns, j, r, lower[n + j])
    ensures Progress(n, columns, lower, k, a, c)
  {
    assert ProgressAt(0, n, columns, lower, j, a, b);
    assert BasisAt(0, a.bs, a.marks);
    assert RowAt(n, columns, lower, j, a, b, r) && a.marks[a.bs[r]];
    forall q: nat | q < n ensures RowAt(n, columns, lower, k, a, c, q) { assert RowAt(n, columns, lower, j, a, b, q); }
    forall u: nat ensures ProgressAt(u, n, columns, lower, k, a, c) { }
  }

  // ---- When the flagged columns all enter ----

  /** Row q belongs to the objective or is not free. */
  predicate Kept(frow: seq<bool>, q: nat)
    requires q < |frow|
  {
    q == 0 || !frow[q]
  }

  ghost function FlagColumns(m: Matrix, lower: seq<bool>): (cs: seq<Vector>)
    requires m.Valid() && |lower| == m.rows + m.columns + 1
    ensures |cs| == m.columns && forall i | 0 <= i < |cs| :: cs[i] == m.ColumnOf(lower[m.rows + 1 + i], m.rows + 1 + i)
  {
    seq(m.columns, i requires 0 <= i < m.columns => m.ColumnOf(lower[m.rows + 1 + i], m.rows + 1 + i))
  }

  /** y combines the flagged columns to what x combines the basic columns of the rows that are not free to. */
  ghost predicate Combines(m: Matrix, lower: seq<bool>, a: Snapshot, x: Vector, y: Vector) {
    && m.Valid() && |lower| == m.rows + m.columns + 1 && a.Shaped(m.rows + 1, m.columns)
    && |x| == m.rows + 1 && |y| == m.columns
    && (forall q | 0 <= q < |x| && !Kept(a.frow, q) :: x[q] == 0.0)
    && (forall i | 0 <= i < |y| && !a.fcol[i] :: y[i] == 0.0)
    && Combination(x, m.BasisColumns(a.bs, a.sides), m.rows + 1, m.rows + 1) ==
       Combination(y, FlagColumns(m, lower), m.columns, m.rows + 1)
  }

  /** The flagged columns are linearly dependent, modulo the basic columns of the rows that are not free. */
  ghost predicate Dependent(m: Matrix, lower: seq<bool>, a: Snapshot) {
    exists x, y, i :: Combines(m, lower, a, x, y) && 0 <= i < |y| && y[i] != 0.0
  }

  lemma ProdUnits(x: real)
    ensures Prod(x, 0.0) == Prod(0.0, x) == 0.0 && Prod(x, 1.0) == Prod(1.0, x) == x
  {
  }

  /** Where only column i0 contributes. */
  lemma {:induction false} CombinationOne(x: Vector, cs: seq<Vector>, k: nat, n: nat, p: nat, i0: nat)
    requires k <= |x| && k <= |cs| && (forall i | 0 <= i < |cs| :: |cs[i]| == n) && p < n
    requires forall i | 0 <= i < k && i != i0 :: Prod(x[i], cs[i][p]) == 0.0
    ensures Combination(x, cs, k, n)[p] == if i0 < k then Prod(x[i0], cs[i0][p]) else 0.0
  {
    if k > 0 { CombinationOne(x, cs, k - 1, n, p, i0); }
  }

  /** Where only columns i0 and i1 contribute. */
  lemma {:induction false} CombinationTwo(x: Vector, cs: seq<Vector>, k: nat, n: nat, p: nat, i0: nat, i1: nat)
    requires i0 < i1 < k <= |x| && k <= |cs| && (forall i | 0 <= i < |cs| :: |cs[i]| == n) && p < n
    requires forall i | 0 <= i < k && i != i0 && i != i1 :: Prod(x[i], cs[i][p]) == 0.0
    ensures Combination(x, cs, k, n)[p] == Prod(x[i0], cs[i0][p]) + Prod(x[i1], cs[i1][p])
  {
    if i1 == k - 1 {
      CombinationOne(x, cs, k - 1, n, p, i0);
    } else {
      CombinationTwo(x, cs, k - 1, n, p, i0, i1);
    }
  }

  ghost function Images(es: seq<seq<Entry>>, cs: seq<Vector>, n: nat): (im: seq<Vector>)
    requires WellFormedFile(es, n) && forall i | 0 <= i < |cs| :: |cs[i]| == n
    ensures |im| == |cs| && forall i | 0 <= i < |im| :: im[i] == ForwardAll(es, cs[i]) && |im[i]| == n
  {
    seq(|cs|, i requires 0 <= i < |cs| => ForwardAll(es, cs[i]))
  }

  lemma {:induction false} CombinationForward(es: seq<seq<Entry>>, x: Vector, cs: seq<Vector>, k: nat, n: nat)
    requires k <= |x| && k <= |cs| && WellFormedFile(es, n) && forall i | 0 <= i < |cs| :: |cs[i]| == n
    ensures ForwardAll(es, Combination(x, cs, k, n)) == Combination(x, Images(es, cs, n), k, n)
  {
    if k == 0 {
      ForwardAllZeros(es, n);
    } else {
      CombinationForward(es, x, cs, k - 1, n);
      ForwardAllLinear(es, x[k - 1], Combination(x, cs, k - 1, n), cs[k - 1]);
    }
  }

  /** The row at which variable v is basic. */
  ghost function RowOf(bs: seq<nat>, v: nat): (q: nat)
    requires v in bs
    ensures q < |bs| && bs[q] == v
  {
    var q: nat :| q < |bs| && bs[q] == v;
    q
  }

  /** The columns before j have come from a to b, and ftran with es sends each basic column of b to its unit vector. */
  ghost predicate Reached(m: Matrix, lower: seq<bool>, j: nat, a: Snapshot, b: Snapshot, es: seq<seq<Entry>>) {
    && m.Valid() && a.Shaped(m.rows + 1, m.columns) && b.Shaped(m.rows + 1, m.columns)
    && |lower| == m.rows + 1 + m.columns && j <= m.columns && BasisOk(b.bs, b.marks)
    && WellFormedFile(es, m.rows + 1) && NonZeroPivots(es) && Progress(m.rows + 1, m.columns, lower, j, a, b)
    && forall u: nat :: SolvedAll(u, m, b, es)
  }

  ghost predicate SolvedAll(unused: nat, m: Matrix, b: Snapshot, es: seq<seq<Entry>>)
    requires m.Valid() && b.Shaped(m.rows + 1, m.columns)
  {
    forall q | 0 <= q <= m.rows :: Solved(es, m.BasisColumns(b.bs, b.sides)[q], m.rows + 1, q)
  }

  lemma ReachedBy(m: Matrix, lower: seq<bool>, j: nat, a: Snapshot, b: Snapshot, cs: seq<Vector>, es: seq<seq<Entry>>,
                  b0: Vector, rhs: Vector)
    requires Progress(m.rows + 1, m.columns, lower, j, a, b) && BasisOk(b.bs, b.marks)
    requires Represents(m, b.bs, b.sides, cs, es, b0, rhs)
    ensures Reached(m, lower, j, a, b, es)
  {
    RepresentsParts(m, b.bs, b.sides, cs, es, b0, rhs);
    assert ProgressAt(0, m.rows + 1, m.columns, lower, j, a, b);
    assert InvertsAt(0, m.rows + 1, es, cs, b0, rhs);
    forall u: nat ensures SolvedAll(u, m, b, es) { }
  }

  lemma KeptImage(m: Matrix, lower: seq<bool>, j: nat, a: Snapshot, b: Snapshot, es: seq<seq<Entry>>, q: nat)
    requires Reached(m, lower, j, a, b, es) && q <= m.rows && Kept(a.frow, q)
    ensures ForwardAll(es, m.BasisColumns(a.bs, a.sides)[q]) == Unit(m.rows + 1, q)
  {
    assert ProgressAt(0, m.rows + 1, m.columns, lower, j, a, b) && SolvedAll(0, m, b, es);
    assert RowAt(m.rows + 1, m.columns, lower, j, a, b, q);
    assert Solved(es, m.BasisColumns(b.bs, b.sides)[q], m.rows + 1, q);
    if q == 0 { assert BasisAt(0, b.bs, b.marks); }
  }

  /** Column i has entered at a row that was free. */
  lemma EnteredRow(n: nat, columns: nat, lower: seq<bool>, j: nat, a: Snapshot, b: Snapshot, i: nat)
    requires Progress(n, columns, lower, j, a, b) && a.Shaped(n, columns) && b.Shaped(n, columns)
    requires BasisOk(b.bs, b.marks) && |lower| == n + columns && i < j <= columns && a.fcol[i]
    ensures n + i in b.bs && var r := RowOf(b.bs, n + i);
      r < n && !Kept(a.frow, r) && !b.frow[r] && b.sides[r] == lower[n + i]
  {
    assert ProgressAt(0, n, columns, lower, j, a, b) && BasisAt(0, b.bs, b.marks);
    var r := RowOf(b.bs, n + i);
    assert RowAt(n, columns, lower, j, a, b, r);
    NotBefore(n, columns, a, i, r);
  }

  lemma NotBefore(n: nat, columns: nat, a: Snapshot, i: nat, r: nat)
    requires Ready(n, columns, a) && i < columns && a.fcol[i] && r < n
    ensures a.bs[r] != n + i
  {
    assert BasisAt(0, a.bs, a.marks) && a.marks[a.bs[r]];
  }

  lemma SameColumn(m: Matrix, lower: seq<bool>, bs: seq<nat>, sides: seq<bool>, r: nat, i: nat)
    requires m.Valid() && |bs| == |sides| && |lower| == m.rows + 1 + m.columns && i < m.columns && 0 < r < |bs|
    requires forall q | 0 <= q < |bs| :: bs[q] <= m.rows + m.columns
    requires bs[r] == m.rows + 1 + i && sides[r] == lower[m.rows + 1 + i]
    ensures m.BasisColumns(bs, sides)[r] == FlagColumns(m, lower)[i]
  {
  }

  lemma EnteredImage(m: Matrix, lower: seq<bool>, j: nat, a: Snapshot, b: Snapshot, es: seq<seq<Entry>>, i: nat)
    requires Reached(m, lower, j, a, b, es) && i < j && a.fcol[i]
    ensures m.rows + 1 + i in b.bs && var r := RowOf(b.bs, m.rows + 1 + i);
      r <= m.rows && !Kept(a.frow, r) && !b.frow[r] && ForwardAll(es, FlagColumns(m, lower)[i]) == Unit(m.rows + 1, r)
  {
    EnteredRow(m.rows + 1, m.columns, lower, j, a, b, i);
    var r := RowOf(b.bs, m.rows + 1 + i);
    SameColumn(m, lower, b.bs, b.sides, r, i);
    assert SolvedAll(0, m, b, es);
  }

  /** The row of each column that has entered before j, n for the others. */
  ghost function RowsOf(n: nat, j: nat, a: Snapshot, b: Snapshot): (row: seq<nat>)
    ensures |row| == |a.fcol|
  {
    seq(|a.fcol|, i requires 0 <= i < |a.fcol| =>
      if i < j && a.fcol[i] && n + i in b.bs then RowOf(b.bs, n + i) else n)
  }

  ghost function KeptRows(frow: seq<bool>): (kept: seq<bool>)
    ensures |kept| == |frow| && forall q | 0 <= q < |frow| :: kept[q] == Kept(frow, q)
  {
    seq(|frow|, q requires 0 <= q < |frow| => Kept(frow, q))
  }

  /** A column of a kept row is the unit vector of that row. */
  ghost predicate KeptAt(n: nat, kept: bool, q: nat, v: Vector) {
    |v| == n && (kept ==> v == Unit(n, q))
  }

  /** A column that has entered at row r is the unit vector of that row, which is not kept. */
  ghost predicate EnteredAt(n: nat, kept: seq<bool>, r: nat, v: Vector)
    requires |kept| == n
  {
    |v| == n && (r < n ==> !kept[r] && v == Unit(n, r))
  }

  ghost predicate OwnRows(n: nat, row: seq<nat>) {
    forall i, k | 0 <= i < |row| && 0 <= k < |row| && i != k && row[i] < n :: row[i] != row[k]
  }

  /** Of the images of basic columns and of flagged ones, those of kept rows and of entered columns are unit vectors. */
  ghost predicate Placed(n: nat, kept: seq<bool>, row: seq<nat>, ai: seq<Vector>, fi: seq<Vector>) {
    && |kept| == |ai| == n && |row| == |fi|
    && (forall q: nat | q < n :: KeptAt(n, kept[q], q, ai[q]))
    && (forall i: nat | i < |fi| :: EnteredAt(n, kept, row[i], fi[i]))
    && OwnRows(n, row)
  }

  lemma RowsOwn(n: nat, columns: nat, lower: seq<bool>, j: nat, a: Snapshot, b: Snapshot)
    requires a.Shaped(n, columns) && b.Shaped(n, columns)
    ensures OwnRows(n, RowsOf(n, j, a, b))
  {
  }

  lemma EnteredPart(m: Matrix, lower: seq<bool>, j: nat, a: Snapshot, b: Snapshot, es: seq<seq<Entry>>, i: nat,
                    kept: seq<bool>, r: nat, v: Vector)
    requires Reached(m, lower, j, a, b, es) && i < m.columns && kept == KeptRows(a.frow)
    requires r == RowsOf(m.rows + 1, j, a, b)[i] && v == ForwardAll(es, FlagColumns(m, lower)[i])
    ensures EnteredAt(m.rows + 1, kept, r, v)
    ensures i < j && a.fcol[i] ==> r <= m.rows
  {
    if i < j && a.fcol[i] {
      EnteredImage(m, lower, j, a, b, es, i);
    } else {
      assert r == m.rows + 1;
    }
  }

  lemma ReachedPlaced(m: Matrix, lower: seq<bool>, j: nat, a: Snapshot, b: Snapshot, es: seq<seq<Entry>>,
                      kept: seq<bool>, row: seq<nat>, ai: seq<Vector>, fi: seq<Vector>)
    requires Reached(m, lower, j, a, b, es) && kept == KeptRows(a.frow) && row == RowsOf(m.rows + 1, j, a, b)
    requires ai == Images(es, m.BasisColumns(a.bs, a.sides), m.rows + 1)
    requires fi == Images(es, FlagColumns(m, lower), m.rows + 1)
    ensures Placed(m.rows + 1, kept, row, ai, fi)
    ensures forall i: nat | i < j && a.fcol[i] :: row[i] <= m.rows
  {
    forall q: nat | q <= m.rows ensures KeptAt(m.rows + 1, kept[q], q, ai[q]) {
      if kept[q] { KeptImage(m, lower, j, a, b, es, q); }
    }
    forall i: nat | i < m.columns
      ensures EnteredAt(m.rows + 1, kept, row[i], fi[i]) && (i < j && a.fcol[i] ==> row[i] <= m.rows)
    {
      EnteredPart(m, lower, j, a, b, es, i, kept, row[i], fi[i]);
    }
    RowsOwn(m.rows + 1, m.columns, lower, j, a, b);
  }

  lemma KeptSum(n: nat, kept: seq<bool>, row: seq<nat>, ai: seq<Vector>, fi: seq<Vector>, x: Vector, p: nat)
    requires Placed(n, kept, row, ai, fi) && |x| == n && p < n
    requires forall q | 0 <= q < n && !kept[q] :: x[q] == 0.0
    ensures Combination(x, ai, n, n)[p] == x[p]
  {
    forall q: nat | q < n ensures Prod(x[q], ai[q][p]) == if q == p then x[p] else 0.0 {
      assert KeptAt(n, kept[q], q, ai[q]);
      ProdUnits(x[q]);
      ProdUnits(ai[q][p]);
    }
    CombinationOne(x, ai, n, n, p, p);
  }

  /** At the row of a column that has entered, a combination of such columns has its coefficient. */
  lemma PlacedSum(n: nat, kept: seq<bool>, row: seq<nat>, ai: seq<Vector>, fi: seq<Vector>, y: Vector, i0: nat)
    requires Placed(n, kept, row, ai, fi) && |y| == |fi| && i0 < |fi| && row[i0] < n
    requires forall i | 0 <= i < |y| && row[i] >= n :: y[i] == 0.0
    ensures Combination(y, fi, |fi|, n)[row[i0]] == y[i0]
  {
    var p := row[i0];
    forall i: nat | i < |y| ensures Prod(y[i], fi[i][p]) == if i == i0 then y[i0] else 0.0 {
      assert EnteredAt(n, kept, row[i], fi[i]);
      ProdUnits(y[i]);
      ProdUnits(fi[i][p]);
    }
    CombinationOne(y, fi, |fi|, n, p, i0);
  }

  /** Column j and minus what the columns that have entered contribute to it. */
  ghost function StuckOn(n: nat, row: seq<nat>, j: nat, v: Vector): (y: Vector)
    requires |v| == n
    ensures |y| == |row|
  {
    seq(|row|, i requires 0 <= i < |row| => if i == j then 1.0 else if row[i] < n then -v[row[i]] else 0.0)
  }

  lemma StuckSum(n: nat, kept: seq<bool>, row: seq<nat>, ai: seq<Vector>, fi: seq<Vector>, j: nat, p: nat)
    requires Placed(n, kept, row, ai, fi) && j < |fi| && p < n && row[j] >= n && |fi[j]| == n
    requires forall i | 0 <= i < |row| && row[i] < n :: i < j
    ensures Combination(StuckOn(n, row, j, fi[j]), fi, |fi|, n)[p] == if p in row then 0.0 else fi[j][p]
  {
    var y, v := StuckOn(n, row, j, fi[j]), fi[j];
    forall i: nat | i < |y| && i != j ensures Prod(y[i], fi[i][p]) == if row[i] == p then -v[p] else 0.0 {
      assert EnteredAt(n, kept, row[i], fi[i]);
      ProdUnits(y[i]);
      ProdUnits(fi[i][p]);
    }
    ProdUnits(v[p]);
    if p in row {
      var i0: nat :| i0 < |row| && row[i0] == p;
      CombinationTwo(y, fi, |fi|, n, p, i0, j);
    } else {
      CombinationOne(y, fi, |fi|, n, p, j);
    }
  }

  ghost function OnKept(kept: seq<bool>, v: Vector): (x: Vector)
    requires |kept| == |v|
    ensures |x| == |v|
  {
    seq(|v|, q requires 0 <= q < |v| => if kept[q] then v[q] else 0.0)
  }

  /** Column j's image is what the kept rows have of it and what the columns that have entered contribute. */
  lemma StuckEqual(n: nat, kept: seq<bool>, row: seq<nat>, ai: seq<Vector>, fi: seq<Vector>, j: nat)
    requires Placed(n, kept, row, ai, fi) && j < |fi| && row[j] >= n && |fi[j]| == n
    requires forall i | 0 <= i < |row| && row[i] < n :: i < j
    requires forall p | 0 <= p < n && !kept[p] && p !in row :: fi[j][p] == 0.0
    ensures Combination(OnKept(kept, fi[j]), ai, n, n) == Combination(StuckOn(n, row, j, fi[j]), fi, |fi|, n)
  {
    var x, y := OnKept(kept, fi[j]), StuckOn(n, row, j, fi[j]);
    forall p: nat | p < n ensures Combination(x, ai, n, n)[p] == Combination(y, fi, |fi|, n)[p] {
      KeptSum(n, kept, row, ai, fi, x, p);
      StuckSum(n, kept, row, ai, fi, j, p);
      if i: nat :| i < |row| && row[i] == p { assert EnteredAt(n, kept, row[i], fi[i]); }
    }
  }

  /** Where a combination of kept columns is one of entered columns, all coefficients of these are zero. */
  lemma OnlyZeros(n: nat, kept: seq<bool>, row: seq<nat>, ai: seq<Vector>, fi: seq<Vector>, x: Vector, y: Vector,
                  i0: nat)
    requires Placed(n, kept, row, ai, fi) && |x| == n && |y| == |fi| && i0 < |y| && row[i0] < n
    requires forall q | 0 <= q < n && !kept[q] :: x[q] == 0.0
    requires forall i | 0 <= i < |y| && row[i] >= n :: y[i] == 0.0
    requires Combination(x, ai, n, n) == Combination(y, fi, |fi|, n)
    ensures y[i0] == 0.0
  {
    KeptSum(n, kept, row, ai, fi, x, row[i0]);
    PlacedSum(n, kept, row, ai, fi, y, i0);
    assert EnteredAt(n, kept, row[i0], fi[i0]);
  }

  lemma OnlyZero(m: Matrix, lower: seq<bool>, a: Snapshot, b: Snapshot, es: seq<seq<Entry>>, x: Vector, y: Vector,
                 i0: nat)
    requires Reached(m, lower, m.columns, a, b, es) && Combines(m, lower, a, x, y) && i0 < |y|
    ensures y[i0] == 0.0
  {
    var n, cs, fs := m.rows + 1, m.BasisColumns(a.bs, a.sides), FlagColumns(m, lower);
    var kept, row, ai, fi := KeptRows(a.frow), RowsOf(n, m.columns, a, b), Images(es, cs, n), Images(es, fs, n);
    ReachedPlaced(m, lower, m.columns, a, b, es, kept, row, ai, fi);
    CombinationForward(es, x, cs, n, n);
    CombinationForward(es, y, fs, m.columns, n);
    if a.fcol[i0] { OnlyZeros(n, kept, row, ai, fi, x, y, i0); }
  }

  /** When all flagged columns have entered, none is a combination of others. */
  lemma EnteredIndependent(m: Matrix, lower: seq<bool>, a: Snapshot, b: Snapshot, es: seq<seq<Entry>>)
    requires Reached(m, lower, m.columns, a, b, es)
    ensures !Dependent(m, lower, a)
  {
    forall x, y, i0: nat | Combines(m, lower, a, x, y) && i0 < |y| ensures y[i0] == 0.0 {
      OnlyZero(m, lower, a, b, es, x, y, i0);
    }
  }

  /** A row that is no longer free is kept or has one of the columns that have entered. */
  lemma RowTaken(n: nat, columns: nat, lower: seq<bool>, j: nat, a: Snapshot, b: Snapshot, p: nat)
    requires Progress(n, columns, lower, j, a, b) && a.Shaped(n, columns) && b.Shaped(n, columns)
    requires BasisOk(b.bs, b.marks) && |lower| == n + columns && p < n && !b.frow[p] && !Kept(a.frow, p)
    ensures p in RowsOf(n, j, a, b)
  {
    assert ProgressAt(0, n, columns, lower, j, a, b) && BasisAt(0, b.bs, b.marks);
    assert RowAt(n, columns, lower, j, a, b, p);
    var i := b.bs[p] - n;
    assert n + i in b.bs && RowOf(b.bs, n + i) == p;
    assert RowsOf(n, j, a, b)[i] == p;
  }

  /** A flagged column that finds no free row depends on the others. */
  lemma StuckDependent(m: Matrix, lower: seq<bool>, j: nat, a: Snapshot, b: Snapshot, es: seq<seq<Entry>>)
    requires Reached(m, lower, j, a, b, es) && j < m.columns && a.fcol[j]
    requires forall q | 0 < q <= m.rows && b.frow[q] :: ForwardAll(es, FlagColumns(m, lower)[j])[q] == 0.0
    ensures Dependent(m, lower, a)
  {
    var n, fs, cs := m.rows + 1, FlagColumns(m, lower), m.BasisColumns(a.bs, a.sides);
    var kept, row, ai, fi := KeptRows(a.frow), RowsOf(n, j, a, b), Images(es, cs, n), Images(es, fs, n);
    var x, y := OnKept(kept, fi[j]), StuckOn(n, row, j, fi[j]);
    ReachedPlaced(m, lower, j, a, b, es, kept, row, ai, fi);
    forall p | 0 <= p < n && !kept[p] && p !in row ensures fi[j][p] == 0.0 {
      if !b.frow[p] { RowTaken(n, m.columns, lower, j, a, b, p); }
    }
    StuckEqual(n, kept, row, ai, fi, j);
    Undone(es, n, x, cs, y, fs);
    CombinesStuck(m, lower, j, a, b, es, x, y);
  }

  /** Combinations with the same image are the same. */
  lemma Undone(es: seq<seq<Entry>>, n: nat, x: Vector, cs: seq<Vector>, y: Vector, fs: seq<Vector>)
    requires WellFormedFile(es, n) && NonZeroPivots(es) && |x| == |cs| && |y| == |fs|
    requires (forall i | 0 <= i < |cs| :: |cs[i]| == n) && forall i | 0 <= i < |fs| :: |fs[i]| == n
    requires Combination(x, Images(es, cs, n), |cs|, n) == Combination(y, Images(es, fs, n), |fs|, n)
    ensures Combination(x, cs, |cs|, n) == Combination(y, fs, |fs|, n)
  {
    CombinationForward(es, x, cs, |cs|, n);
    CombinationForward(es, y, fs, |fs|, n);
    ForwardAllInjective(es, Combination(x, cs, |cs|, n), Combination(y, fs, |fs|, n));
  }

  lemma CombinesStuck(m: Matrix, lower: seq<bool>, j: nat, a: Snapshot, b: Snapshot, es: seq<seq<Entry>>, x: Vector,
                      y: Vector)
    requires Reached(m, lower, j, a, b, es) && j < m.columns && a.fcol[j]
    requires var v := ForwardAll(es, FlagColumns(m, lower)[j]);
      x == OnKept(KeptRows(a.frow), v) && y == StuckOn(m.rows + 1, RowsOf(m.rows + 1, j, a, b), j, v)
    requires Combination(x, m.BasisColumns(a.bs, a.sides), m.rows + 1, m.rows + 1) ==
             Combination(y, FlagColumns(m, lower), m.columns, m.rows + 1)
    ensures Dependent(m, lower, a)
  {
    assert Combines(m, lower, a, x, y) && y[j] != 0.0;
  }

  class Simplex {
    const m: Matrix
    const eta: EtaFile
    const rhs: array<real>
    const bas: array<nat>     // the variable that is basic in each row
    const basis: array<bool>  // which variables are basic
    ghost var cols: seq<Vector> // the columns of the basic variables
    ghost var side: seq<bool> // for each row, whether its variable was pivoted in from the lower bound
    ghost var rhs0: Vector    // the right-hand side before any pivot

    ghost predicate Shape()
      reads this, eta, eta.etaValue, eta.etaRowNr, eta.etaColEnd
    {
      && m.Valid()
      && eta.rows == m.rows
      && rhs != eta.etaValue && bas != eta.etaRowNr && bas != eta.etaColEnd
      && rhs.Length == bas.Length == |side| == m.rows + 1 && basis.Length == m.rows + m.columns + 1
      && eta.Valid()
    }

    ghost predicate Valid()
      reads this, eta, eta.etaValue, eta.etaRowNr, eta.etaColEnd, rhs, bas, basis
    {
      && Shape()
      && BasisOk(bas[..], basis[..])
      && Represents(m, bas[..], side, cols, eta.columns, rhs0, rhs[..])
    }

    /** A fresh solver: every row has its slack basic and nothing has been pivoted. */
    constructor (m: Matrix, alloc: nat, ends: nat, rh: seq<real>)
      requires m.Valid() && ends > 0 && |rh| == m.rows + 1
      ensures Valid() && this.m == m && rhs0 == rh && eta.columns == []
      ensures bas[..] == Identity(m.rows + 1)
      ensures fresh(eta) && fresh(rhs) && fresh(bas) && fresh(basis)
      ensures fresh(eta.etaValue) && fresh(eta.etaRowNr) && fresh(eta.etaColEnd)
    {
      this.m := m;
      eta := new EtaFile(m.rows, alloc, ends);
      rhs := new real[m.rows + 1](i requires 0 <= i <= m.rows => rh[i]);
      bas := new nat[m.rows + 1](i requires 0 <= i <= m.rows => i);
      basis := new bool[m.rows + m.columns + 1](i => i <= m.rows);
      side, rhs0 := AllTrue(m.rows + 1), rh;
      cols := m.BasisColumns(Identity(m.rows + 1), AllTrue(m.rows + 1));
      new;
      assert rhs[..] == rh && bas[..] == Identity(m.rows + 1);
      SlackBasis(m, rh, basis[..]);
    }

    /** The pivot column: the variable's column through all etas. */
    method SetPivCol(lower: bool, varin: nat, pcol: array<real>)
      requires Valid() && varin <= m.rows + m.columns
      requires pcol.Length == m.rows + 1 && pcol != eta.etaValue
      modifies pcol
      ensures pcol[..] == ForwardAll(eta.columns, m.ColumnOf(lower, varin))
    {
      LoadColumn(m, lower, varin, pcol);
      eta.Ftran(1, eta.etaSize, pcol);
      assert eta.columns[0..eta.etaSize] == eta.columns;
    }

    /** Carries the right-hand side over a pivot and exchanges the basic variable of the row. */
    method RhsMinCol(theta: real, rowNr: nat, varin: nat, ghost e: seq<Entry>)
      requires Shape() && eta.Pending(e) && InRange(e, rhs.Length)
      requires rowNr < rhs.Length && varin < basis.Length && bas[rowNr] < basis.Length
      modifies rhs, bas, basis
      ensures rhs[..] == Scatter(e, -theta, old(rhs[..]))[rowNr := theta]
      ensures bas[..] == old(bas[..])[rowNr := varin]
      ensures basis[..] == old(basis[..])[old(bas[rowNr]) := false][varin := true]
    {
      ScatterSlots(eta.etaRowNr, eta.etaValue, eta.etaColEnd[eta.etaSize], eta.etaColEnd[eta.etaSize + 1], -theta, rhs,
                   e);
      rhs[rowNr] := theta;
      var varout := bas[rowNr];
      bas[rowNr] := varin;
      basis[varout] := false;
      basis[varin] := true;
    }

    /** Enough space for k more columns: doubling the slots once always makes room for the next one. */
    ghost predicate Room(k: nat)
      reads this, eta
    {
      eta.etaSize + k < eta.etaColEnd.Length && m.rows + 2 <= eta.etaValue.Length
    }

    /** Divides by the pivot and carries the right-hand side over. */
    method ExchangeRhs(varin: nat, rowNr: nat, pcol: array<real>, ghost v: Vector)
      requires Shape() && |v| == m.rows + 1 && v == pcol[..]
      requires rowNr <= m.rows && varin < basis.Length && bas[rowNr] < basis.Length
      requires pcol.Length == m.rows + 1 && pcol != rhs && v[rowNr] != 0.0 && eta.Pending(Condensed(v, rowNr))
      modifies rhs, bas, basis
      ensures Shape() && eta.Pending(Condensed(v, rowNr)) && pcol[..] == v
      ensures rhs[..] == Forward(Inverted(Condensed(v, rowNr), m.rows + 1), old(rhs[..]))
      ensures bas[..] == old(bas[..])[rowNr := varin]
      ensures basis[..] == old(basis[..])[old(bas[rowNr]) := false][varin := true]
    {
      ghost var b := rhs[..];
      var theta := rhs[rowNr] / pcol[rowNr];
      RhsByPivot(v, rowNr, theta, b);
      RhsMinCol(theta, rowNr, varin, Condensed(v, rowNr));
    }

    /** Stores the pivot column and carries the right-hand side over. */
    method CondenseRhs(varin: nat, rowNr: nat, pcol: array<real>, ghost v: Vector, ghost e: seq<Entry>,
                       ghost f: seq<Entry>)
      requires Shape() && Room(1) && pcol.Length == m.rows + 1 && v == pcol[..] && EtaOf(v, rowNr, e, f)
      requires rowNr <= m.rows && varin < basis.Length && bas[rowNr] < basis.Length
      requires pcol != rhs && pcol != eta.etaValue
      modifies eta, eta.etaValue, eta.etaRowNr, eta.etaColEnd, rhs, bas, basis
      ensures Shape() && eta.Pending(e) && eta.columns == old(eta.columns) && pcol[..] == v
      ensures WellFormed(f, m.rows + 1) && rhs[..] == Forward(f, old(rhs[..]))
              && bas[..] == old(bas[..])[rowNr := varin]
      ensures basis[..] == old(basis[..])[old(bas[rowNr]) := false][varin := true]
      ensures eta.etaValue == old(eta.etaValue) || fresh(eta.etaValue)
      ensures eta.etaRowNr == old(eta.etaRowNr) || fresh(eta.etaRowNr)
      ensures eta.etaColEnd == old(eta.etaColEnd) && old(eta.etaValue.Length) <= eta.etaValue.Length
    {
      assert EtaOfAt(0, v, rowNr, e, f);
      eta.CondenseCol(rowNr, pcol);
      ExchangeRhs(varin, rowNr, pcol, v);
    }

    /** Finishes the stored column. */
    method FinishEta(rowNr: nat, ghost v: Vector, ghost e: seq<Entry>, ghost f: seq<Entry>)
      requires Shape() && eta.Pending(e) && EtaOf(v, rowNr, e, f) && |v| == m.rows + 1
      modifies eta`etaSize, eta`columns, eta.etaValue
      ensures Shape() && eta.columns == old(eta.columns) + [f]
    {
      assert EtaOfAt(0, v, rowNr, e, f);
      eta.AddEtaCol(e);
    }

    /** What a pivot does to the arrays; v is the pivot column and f the eta column made of it. */
    method Exchange(varin: nat, rowNr: nat, pcol: array<real>, ghost v: Vector, ghost e: seq<Entry>,
                    ghost f: seq<Entry>)
      requires Shape() && Room(1) && pcol.Length == m.rows + 1 && v == pcol[..] && EtaOf(v, rowNr, e, f)
      requires rowNr <= m.rows && varin < basis.Length && bas[rowNr] < basis.Length
      requires pcol != rhs && pcol != eta.etaValue
      modifies eta, eta.etaValue, eta.etaRowNr, eta.etaColEnd, rhs, bas, basis
      ensures Shape() && eta.columns == old(eta.columns) + [f] && pcol[..] == v
      ensures WellFormed(f, m.rows + 1) && rhs[..] == Forward(f, old(rhs[..]))
              && bas[..] == old(bas[..])[rowNr := varin]
      ensures basis[..] == old(basis[..])[old(bas[rowNr]) := false][varin := true]
      ensures eta.etaValue == old(eta.etaValue) || fresh(eta.etaValue)
      ensures eta.etaRowNr == old(eta.etaRowNr) || fresh(eta.etaRowNr)
      ensures eta.etaColEnd == old(eta.etaColEnd) && old(eta.etaValue.Length) <= eta.etaValue.Length
    {
      CondenseRhs(varin, rowNr, pcol, v, e, f);
      FinishEta(rowNr, v, e, f);
    }

    /** One pivot: the column of varin becomes the unit vector of its row, and nothing else is lost. */
    method Pivot(lower: bool, varin: nat, rowNr: nat, pcol: array<real>)
      requires Valid() && Room(1)
      requires 0 < rowNr <= m.rows && varin <= m.rows + m.columns && !basis[varin]
      requires pcol.Length == m.rows + 1 && pcol != rhs && pcol != eta.etaValue
      requires pcol[..] == ForwardAll(eta.columns, m.ColumnOf(lower, varin)) && pcol[rowNr] != 0.0
      modifies this`side, this`cols, eta, eta.etaValue, eta.etaRowNr, eta.etaColEnd, rhs, bas, basis
      ensures Valid() && rhs0 == old(rhs0)
      ensures bas[..] == old(bas[..])[rowNr := varin] && side == old(side)[rowNr := lower]
      ensures basis[..] == old(basis[..])[old(bas[rowNr]) := false][varin := true]
      ensures eta.columns == old(eta.columns) + [Inverted(Condensed(old(pcol[..]), rowNr), m.rows + 1)]
      ensures eta.etaSize == old(eta.etaSize) + 1
      ensures eta.etaValue == old(eta.etaValue) || fresh(eta.etaValue)
      ensures eta.etaRowNr == old(eta.etaRowNr) || fresh(eta.etaRowNr)
      ensures eta.etaColEnd == old(eta.etaColEnd) && pcol[..] == old(pcol[..])
      ensures old(eta.etaValue.Length) <= eta.etaValue.Length
    {
      ghost var e := Inverted(Condensed(pcol[..], rowNr), m.rows + 1);
      ghost var es, b, bs, sides := eta.columns + [e], Forward(e, rhs[..]), bas[..][rowNr := varin],
          side[rowNr := lower];
      ghost var marks := basis[..][bas[rowNr] := false][varin := true];
      ghost var cs := PivotKeeps(m, eta.columns, bas[..], basis[..], side, cols, rhs0, rhs[..],
                                 lower, varin, rowNr, pcol[..], e, es, bs, marks, sides, b);
      EtaIs(pcol[..], rowNr, Condensed(pcol[..], rowNr), e);
      Exchange(varin, rowNr, pcol, pcol[..], Condensed(pcol[..], rowNr), e);
      side, cols := sides, cs;
      assert eta.columns == es && rhs[..] == b && bas[..] == bs && basis[..] == marks;
    }

    /** How many of the flags are still set. */
    static ghost function Count(flags: seq<bool>): nat {
      if |flags| == 0 then 0 else (if flags[0] then 1 else 0) + Count(flags[1..])
    }

    static lemma {:induction false} CountClear(flags: seq<bool>, i: nat)
      requires i < |flags| && flags[i]
      ensures Count(flags[i := false]) == Count(flags) - 1
    {
      if i == 0 {
        assert flags[i := false][1..] == flags[1..];
      } else {
        assert flags[i := false][1..] == flags[1..][i - 1 := false];
        CountClear(flags[1..], i - 1);
      }
    }

    /** The first free row with a non-zero pivot, or rows + 1. */
    method FreeRow(frow: array<bool>, pcol: array<real>) returns (rowNr: nat)
      requires frow.Length == pcol.Length == m.rows + 1
      ensures 0 < rowNr <= m.rows + 1
      ensures forall q | 0 < q < rowNr :: !frow[q] || pcol[q] == 0.0
      ensures rowNr <= m.rows ==> frow[rowNr] && pcol[rowNr] != 0.0
    {
      rowNr := 1;
      while rowNr <= m.rows && (!frow[rowNr] || pcol[rowNr] == 0.0)
        invariant 0 < rowNr <= m.rows + 1
        invariant forall q | 0 < q < rowNr :: !frow[q] || pcol[q] == 0.0
      {
        rowNr := rowNr + 1;
      }
    }

    ghost function Snap(fcol: array<bool>, frow: array<bool>): Snapshot
      reads this, bas, basis, fcol, frow
    {
      Snapshot(bas[..], basis[..], side, frow[..], fcol[..])
    }

    /** No free row before row r has a pivot for the variable's column. */
    ghost predicate NoFreeRow(es: seq<seq<Entry>>, lower: bool, varin: nat, frow: seq<bool>, r: nat)
      requires m.Valid() && varin <= m.rows + m.columns && |frow| == m.rows + 1 && WellFormedFile(es, m.rows + 1)
    {
      r <= m.rows + 1 && forall q | 0 < q < r && frow[q] :: ForwardAll(es, m.ColumnOf(lower, varin))[q] == 0.0
    }

    /** Brings a variable into the basis at the first free row that will take it, if there is one. */
    method EnterBasis(lower: bool, varin: nat, frow: array<bool>, pcol: array<real>) returns (rowNr: nat)
      requires Valid() && Room(1) && varin <= m.rows + m.columns && !basis[varin]
      requires frow.Length == pcol.Length == m.rows + 1 && frow != basis && pcol != rhs && pcol != eta.etaValue
      modifies this`side, this`cols, eta, eta.etaValue, eta.etaRowNr, eta.etaColEnd, rhs, bas, basis, frow, pcol
      ensures Valid() && rhs0 == old(rhs0) && 0 < rowNr <= m.rows + 1
      ensures rowNr == m.rows + 1 ==>
                && eta.columns == old(eta.columns) && frow[..] == old(frow[..])
                && bas[..] == old(bas[..]) && basis[..] == old(basis[..]) && side == old(side)
      ensures NoFreeRow(old(eta.columns), lower, varin, old(frow[..]), rowNr)
      ensures rowNr <= m.rows ==>
                && old(frow[rowNr]) && frow[..] == old(frow[..])[rowNr := false]
                && old(ForwardAll(eta.columns, m.ColumnOf(lower, varin)))[rowNr] != 0.0
                && bas[..] == old(bas[..])[rowNr := varin] && side == old(side)[rowNr := lower]
                && basis[..] == old(basis[..])[old(bas[rowNr]) := false][varin := true]
                && eta.etaSize == old(eta.etaSize) + 1
      ensures eta.etaValue == old(eta.etaValue) || fresh(eta.etaValue)
      ensures eta.etaRowNr == old(eta.etaRowNr) || fresh(eta.etaRowNr)
      ensures eta.etaColEnd == old(eta.etaColEnd) && old(eta.etaValue.Length) <= eta.etaValue.Length
    {
      SetPivCol(lower, varin, pcol);
      rowNr := FreeRow(frow, pcol);
      if rowNr <= m.rows {
        frow[rowNr] := false;
        Pivot(lower, varin, rowNr, pcol);
      }
    }

    /** Clears the flag of column j and brings it into the basis. */
    method EnterColumn(lower: bool, j: nat, fcol: array<bool>, frow: array<bool>, pcol: array<real>, ghost b: Snapshot)
      returns (rowNr: nat)
      requires Valid() && j < m.columns && !basis[m.rows + 1 + j] && Room(Count(fcol[..]))
      requires fcol.Length == m.columns && frow.Length == pcol.Length == m.rows + 1 && fcol[j] && b == Snap(fcol, frow)
      requires fcol != basis && frow != basis && fcol != frow && pcol != rhs && pcol != eta.etaValue
      modifies this`side, this`cols, eta, eta.etaValue, eta.etaRowNr, eta.etaColEnd, rhs, bas, basis, fcol, frow, pcol
      ensures Valid() && rhs0 == old(rhs0) && rowNr <= m.rows + 1
      ensures rowNr <= m.rows ==> b.frow[rowNr] && Room(Count(fcol[..]))
      ensures rowNr > m.rows ==>
                && eta.columns == old(eta.columns) && Snap(fcol, frow) == b.(fcol := b.fcol[j := false])
                && NoFreeRow(eta.columns, lower, m.rows + 1 + j, frow[..], m.rows + 1)
      ensures rowNr <= m.rows ==>
                b.Shaped(m.rows + 1, m.columns) && Snap(fcol, frow) == b.Entered(m.rows + 1, m.columns, j, rowNr, lower)
      ensures eta.etaValue == old(eta.etaValue) || fresh(eta.etaValue)
      ensures eta.etaRowNr == old(eta.etaRowNr) || fresh(eta.etaRowNr)
      ensures eta.etaColEnd == old(eta.etaColEnd)
    {
      CountClear(fcol[..], j);
      fcol[j] := false;
      rowNr := EnterBasis(lower, m.rows + 1 + j, frow, pcol);
    }

    /** The columns before j have entered, and column j, whose flag is cleared, has found no free row. */
    ghost predicate Stuck(lower: seq<bool>, j: nat, a: Snapshot, b: Snapshot)
      reads eta
    {
      && j < |a.fcol| == |b.fcol| == m.columns && a.fcol[j] && !b.fcol[j]
      && |lower| == m.rows + 1 + m.columns && |b.frow| == m.rows + 1 && m.Valid()
      && WellFormedFile(eta.columns, m.rows + 1)
      && Progress(m.rows + 1, m.columns, lower, j, a, b.(fcol := b.fcol[j := true]))
      && NoFreeRow(eta.columns, lower[m.rows + 1 + j], m.rows + 1 + j, b.frow, m.rows + 1)
    }

    lemma IsStuck(lower: seq<bool>, j: nat, a: Snapshot, b: Snapshot, c: Snapshot)
      requires Valid() && j < m.columns && |lower| == m.rows + 1 + m.columns && b.Shaped(m.rows + 1, m.columns)
      requires b.bs == bas[..] && b.marks == basis[..] && b.sides == side && b.fcol[j]
      requires Progress(m.rows + 1, m.columns, lower, j, a, b) && c == b.(fcol := b.fcol[j := false])
      requires NoFreeRow(eta.columns, lower[m.rows + 1 + j], m.rows + 1 + j, b.frow, m.rows + 1)
      ensures Stuck(lower, j, a, c) && Dependent(m, lower, a)
    {
      assert b.fcol[j := false][j := true] == b.fcol;
      ProgressFacts(m.rows + 1, m.columns, lower, j, a, b);
      ReachedBy(m, lower, j, a, b, cols, eta.columns, rhs0, rhs[..]);
      StuckDependent(m, lower, j, a, b, eta.columns);
    }

    /** Column j, if its flag is set, enters the basis; ok is false if no free row takes it. */
    method NextColumn(lower: seq<bool>, j: nat, fcol: array<bool>, frow: array<bool>, pcol: array<real>,
                      ghost a: Snapshot, ghost b: Snapshot)
      returns (ok: bool)
      requires Valid() && j < m.columns && Room(Count(fcol[..])) && |lower| == m.rows + 1 + m.columns
      requires fcol.Length == m.columns && frow.Length == pcol.Length == m.rows + 1
      requires b == Snap(fcol, frow) && Progress(m.rows + 1, m.columns, lower, j, a, b)
      requires fcol != basis && frow != basis && fcol != frow && pcol != rhs && pcol != eta.etaValue
      modifies this`side, this`cols, eta, eta.etaValue, eta.etaRowNr, eta.etaColEnd, rhs, bas, basis, fcol, frow, pcol
      ensures Valid() && rhs0 == old(rhs0)
      ensures ok ==> Room(Count(fcol[..])) && Progress(m.rows + 1, m.columns, lower, j + 1, a, Snap(fcol, frow))
      ensures !ok ==> Stuck(lower, j, a, Snap(fcol, frow)) && Dependent(m, lower, a)
      ensures eta.etaValue == old(eta.etaValue) || fresh(eta.etaValue)
      ensures eta.etaRowNr == old(eta.etaRowNr) || fresh(eta.etaRowNr)
      ensures eta.etaColEnd == old(eta.etaColEnd)
    {
      ProgressFacts(m.rows + 1, m.columns, lower, j, a, b);
      if fcol[j] {
        var rowNr := EnterColumn(lower[m.rows + 1 + j], j, fcol, frow, pcol, b);
        ok := rowNr <= m.rows;
        if ok {
          ProgressStep(m.rows + 1, m.columns, lower, j, a, b, rowNr, j + 1, Snap(fcol, frow));
        } else {
          IsStuck(lower, j, a, b, Snap(fcol, frow));
        }
      } else {
        ok := true;
        ProgressSkips(m.rows + 1, m.columns, lower, j, a, b, j + 1);
      }
    }

    /**
     * The general pivots of invert: every flagged column enters the basis at some free row, exactly when
     * the flagged columns are independent modulo the basic columns of the rows that are not free.
     */
    method PivotFlagged(lower: seq<bool>, fcol: array<bool>, frow: array<bool>, pcol: array<real>) returns (ok: bool)
      requires Valid() && Room(Count(fcol[..]))
      requires |lower| == basis.Length && fcol.Length == m.columns && frow.Length == pcol.Length == m.rows + 1
      requires fcol != basis && frow != basis && fcol != frow && pcol != rhs && pcol != eta.etaValue
      requires forall i | 0 <= i < m.columns && fcol[i] :: !basis[m.rows + 1 + i]
      modifies this`side, this`cols, eta, eta.etaValue, eta.etaRowNr, eta.etaColEnd, rhs, bas, basis, fcol, frow, pcol
      ensures Valid() && rhs0 == old(rhs0)
      ensures ok <==> !Dependent(m, lower, old(Snap(fcol, frow)))
      ensures ok ==> Progress(m.rows + 1, m.columns, lower, m.columns, old(Snap(fcol, frow)), Snap(fcol, frow))
      ensures !ok ==> exists j: nat :: Stuck(lower, j, old(Snap(fcol, frow)), Snap(fcol, frow))
    {
      ghost var a := Snap(fcol, frow);
      ghost var b := a;
      ProgressBegins(m.rows + 1, m.columns, lower, a);
      for j := 0 to m.columns
        invariant Valid() && Room(Count(fcol[..])) && rhs0 == old(rhs0)
        invariant pcol != eta.etaValue && (eta.etaValue == old(eta.etaValue) || fresh(eta.etaValue))
        invariant eta.etaRowNr == old(eta.etaRowNr) || fresh(eta.etaRowNr)
        invariant eta.etaColEnd == old(eta.etaColEnd)
        invariant b == Snap(fcol, frow) && Progress(m.rows + 1, m.columns, lower, j, a, b)
      {
        ok := NextColumn(lower, j, fcol, frow, pcol, a, b);
        if !ok { return false; }
        b := Snap(fcol, frow);
      }
      ok := true;
      ReachedBy(m, lower, m.columns, a, b, cols, eta.columns, rhs0, rhs[..]);
      EnteredIndependent(m, lower, a, b, eta.columns);
    }
  }

  /** Adds the entries of one stored column. */
  method LoadEntries(m: Matrix, colnr: nat, f: real, pcol: array<real>)
    requires m.Valid() && 0 < colnr <= m.columns && pcol.Length == m.rows + 1 && pcol[..] == Zeros(m.rows + 1)
    modifies pcol
    ensures m.colEnd[colnr - 1] <= m.colEnd[colnr] <= |m.entries|
    ensures pcol[..] == Load(m.entries[m.colEnd[colnr - 1]..m.colEnd[colnr]], f, Zeros(m.rows + 1))
  {
    ghost var e := m.entries[m.colEnd[colnr - 1]..m.colEnd[colnr]];
    for i := m.colEnd[colnr - 1] to m.colEnd[colnr]
      invariant pcol[..] == Load(e[..i - m.colEnd[colnr - 1]], f, Zeros(m.rows + 1))
    {
      FrontStep(e, i - m.colEnd[colnr - 1]);
      pcol[m.entries[i].row] := Prod(m.entries[i].value, f);
    }
    assert e[..|e|] == e;
  }

  /** Writes the variable's column into pcol. */
  method LoadColumn(m: Matrix, lower: bool, varin: nat, pcol: array<real>)
    requires m.Valid() && varin <= m.rows + m.columns && pcol.Length == m.rows + 1
    modifies pcol
    ensures pcol[..] == m.ColumnOf(lower, varin)
  {
    var f := if lower then 1.0 else -1.0;
    forall i | 0 <= i <= m.rows { pcol[i] := 0.0; }
    assert pcol[..] == Zeros(m.rows + 1);
    if varin > m.rows {
      LoadEntries(m, varin - m.rows, f, pcol);
      pcol[0] := pcol[0] - Prod(m.extrad, f);
    } else {
      pcol[varin] := f;
    }
  }
}
