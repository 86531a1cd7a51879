/** The eta file as lp_solve keeps it: three arrays and a column count, updated in place. */
module EtaFiles {
  import opened Eta

  /** Slots lo .. hi - 1 hold exactly the entries e. */
  ghost predicate Stored(e: seq<Entry>, rowNr: seq<nat>, value: seq<real>, lo: nat, hi: nat) {
    && lo <= hi <= |rowNr| && hi <= |value| && |e| == hi - lo
    && forall k | 0 <= k < |e| :: e[k].row == rowNr[lo + k] && e[k].value == value[lo + k]
  }

  /** Consecutive columns es, delimited by colEnd. */
  ghost predicate FileStored(es: seq<seq<Entry>>, rowNr: seq<nat>, value: seq<real>, colEnd: seq<nat>) {
    && |es| < |colEnd|
    && forall i | 0 <= i < |es| :: Stored(es[i], rowNr, value, colEnd[i], colEnd[i + 1])
  }

  lemma {:induction false} EndsIncrease(es: seq<seq<Entry>>, rowNr: seq<nat>, value: seq<real>, colEnd: seq<nat>,
                                        i: nat)
    requires FileStored(es, rowNr, value, colEnd) && i <= |es|
    ensures colEnd[i] <= colEnd[|es|]
    decreases |es| - i
  {
    if i < |es| {
      assert Stored(es[i], rowNr, value, colEnd[i], colEnd[i + 1]);
      EndsIncrease(es, rowNr, value, colEnd, i + 1);
    }
  }

  /** Columns depend only on the slots below the last column end. */
  lemma FileKept(es: seq<seq<Entry>>, rowNr: seq<nat>, value: seq<real>, colEnd: seq<nat>,
                 rowNr': seq<nat>, value': seq<real>, colEnd': seq<nat>)
    requires FileStored(es, rowNr, value, colEnd)
    requires |es| < |colEnd'| && colEnd'[..|es| + 1] == colEnd[..|es| + 1]
    requires colEnd[|es|] <= |rowNr'| && colEnd[|es|] <= |value'| && colEnd[|es|] <= |rowNr| && colEnd[|es|] <= |value|
    requires rowNr'[..colEnd[|es|]] == rowNr[..colEnd[|es|]] && value'[..colEnd[|es|]] == value[..colEnd[|es|]]
    ensures FileStored(es, rowNr', value', colEnd')
  {
    var top := colEnd[|es|];
    forall i | 0 <= i < |es| ensures Stored(es[i], rowNr', value', colEnd'[i], colEnd'[i + 1]) {
      assert Stored(es[i], rowNr, value, colEnd[i], colEnd[i + 1]);
      EndsIncrease(es, rowNr, value, colEnd, i + 1);
      assert colEnd'[i] == colEnd'[..|es| + 1][i] && colEnd'[i + 1] == colEnd'[..|es| + 1][i + 1];
      forall k | 0 <= k < |es[i]|
        ensures es[i][k].row == rowNr'[colEnd[i] + k] && es[i][k].value == value'[colEnd[i] + k]
      {
        assert rowNr'[..top][colEnd[i] + k] == rowNr[..top][colEnd[i] + k];
        assert value'[..top][colEnd[i] + k] == value[..top][colEnd[i] + k];
      }
    }
  }

  lemma {:induction false} ScatterZero(e: seq<Entry>, v: Vector)
    requires InRange(e, |v|)
    ensures Scatter(e, 0.0, v) == v
  {
    if |e| != 0 {
      ScatterZero(Front(e), v);
      assert Prod(0.0, Pivot(e).value) == 0.0;
    }
  }

  lemma ForwardAllStep(es: seq<seq<Entry>>, k: nat, v: Vector, w: Vector, w': Vector)
    requires k < |es| && WellFormedFile(es, |v|)
    requires w == ForwardAll(es[..k], v) && w' == Forward(es[k], w)
    ensures w' == ForwardAll(es[..k + 1], v)
  {
    assert es[..k + 1][..k] == es[..k];
  }

  lemma BackwardAllStep(es: seq<seq<Entry>>, k: nat, v: Vector)
    requires k < |es| && WellFormedFile(es, |v|)
    ensures BackwardAll(es[..k + 1], v) == BackwardAll(es[..k], Backward(es[k], v))
  {
    assert es[..k + 1][..k] == es[..k];
  }

  lemma FrontStep(e: seq<Entry>, k: nat)
    requires k < |e|
    ensures Front(e[..k + 1]) == e[..k] && Pivot(e[..k + 1]) == e[k]
  {
  }

  /** The inner loop of ftran. */
  method ScatterSlots(rowNr: array<nat>, value: array<real>, lo: nat, hi: nat, theta: real, pcol: array<real>,
                      ghost e: seq<Entry>)
    requires Stored(e, rowNr[..], value[..], lo, hi) && pcol != value && InRange(e, pcol.Length)
    modifies pcol
    ensures pcol[..] == Scatter(e, theta, old(pcol[..]))
  {
    ghost var v := pcol[..];
    for j := lo to hi
      invariant pcol[..] == Scatter(e[..j - lo], theta, v)
    {
      FrontStep(e, j - lo);
      pcol[rowNr[j]] := pcol[rowNr[j]] + Prod(theta, value[j]);
    }
    assert e[..hi - lo] == e;
  }

  /** The inner loop of btran. */
  method GatherSlots(rowNr: array<nat>, value: array<real>, lo: nat, hi: nat, row: array<real>, ghost e: seq<Entry>)
    returns (f: real)
    requires Stored(e, rowNr[..], value[..], lo, hi) && InRange(e, row.Length)
    ensures f == Gather(e, row[..])
  {
    f := 0.0;
    for j := lo to hi
      invariant f == Gather(e[..j - lo], row[..])
    {
      FrontStep(e, j - lo);
      f := f + Prod(row[rowNr[j]], value[j]);
    }
    assert e[..hi - lo] == e;
  }

  /** Stores the condensed form of pcol from slot lo on. */
  method StoreCondensed(rowNr: array<nat>, value: array<real>, lo: nat, r: nat, pcol: array<real>) returns (elnr: nat)
    requires r < pcol.Length && pcol != value
    requires lo + pcol.Length <= rowNr.Length && rowNr.Length == value.Length
    modifies rowNr, value
    ensures lo < elnr <= rowNr.Length
    ensures Stored(Condensed(pcol[..], r), rowNr[..], value[..], lo, elnr)
    ensures rowNr[..lo] == old(rowNr[..lo]) && value[..lo] == old(value[..lo])
  {
    elnr := lo;
    ghost var v := pcol[..];
    for i := 0 to pcol.Length
      invariant lo <= elnr <= lo + i && (i > r ==> elnr < lo + i)
      invariant Stored(NonZeros(v, r, i), rowNr[..], value[..], lo, elnr)
      invariant rowNr[..lo] == old(rowNr[..lo]) && value[..lo] == old(value[..lo])
    {
      if i != r && pcol[i] != 0.0 {
        rowNr[elnr] := i;
        value[elnr] := pcol[i];
        elnr := elnr + 1;
      }
    }
    rowNr[elnr] := r;
    value[elnr] := pcol[r];
    elnr := elnr + 1;
  }

  /** Inverts the pivot in slot hi - 1 and scales the slots before it. */
  method InvertSlots(rowNr: array<nat>, value: array<real>, lo: nat, hi: nat, ghost e: seq<Entry>, ghost n: nat)
    requires Stored(e, rowNr[..], value[..], lo, hi) && WellFormed(e, n) && Pivot(e).value != 0.0
    modifies value
    ensures Stored(Inverted(e, n), rowNr[..], value[..], lo, hi)
    ensures value[..lo] == old(value[..lo])
  {
    var theta := 1.0 / value[hi - 1];
    value[hi - 1] := theta;
    for i := lo to hi - 1
      invariant forall m | lo <= m < i :: value[m] == Prod(old(value[m]), -theta)
      invariant forall m | i <= m < hi - 1 :: value[m] == old(value[m])
      invariant value[hi - 1] == theta
      invariant value[..lo] == old(value[..lo])
    {
      value[i] := Prod(value[i], -theta);
    }
  }

  class EtaFile {
    const rows: nat
    var etaSize: nat
    var etaValue: array<real>
    var etaRowNr: array<nat>
    var etaColEnd: array<nat>

    /** The finished columns, and what they look like in the arrays. */
    ghost var columns: seq<seq<Entry>>

    ghost predicate Valid()
      reads this, etaValue, etaRowNr, etaColEnd
    {
      && etaRowNr != etaColEnd
      && etaValue.Length == etaRowNr.Length
      && |columns| == etaSize < etaColEnd.Length
      && etaColEnd[etaSize] <= etaValue.Length
      && FileStored(columns, etaRowNr[..], etaValue[..], etaColEnd[..])
      && WellFormedFile(columns, rows + 1)
    }

    constructor (rows: nat, alloc: nat, ends: nat)
      requires ends > 0
      ensures Valid() && columns == [] && this.rows == rows
      ensures fresh(etaValue) && fresh(etaRowNr) && fresh(etaColEnd)
      ensures etaValue.Length == alloc && etaColEnd.Length == ends
    {
      this.rows := rows;
      etaSize := 0;
      etaValue := new real[alloc];
      etaRowNr := new nat[alloc];
      etaColEnd := new nat[ends](_ => 0);
      columns := [];
    }

    /** Applies columns start .. end to pcol, scattering each. */
    method Ftran(start: nat, end: nat, pcol: array<real>)
      requires Valid() && 1 <= start <= end + 1 && end <= etaSize
      requires pcol != etaValue && rows < pcol.Length
      modifies pcol
      ensures WellFormedFile(columns[start - 1..end], pcol.Length)
      ensures pcol[..] == ForwardAll(columns[start - 1..end], old(pcol[..]))
    {
      ghost var es, v := columns[start - 1..end], pcol[..];
      assert WellFormedFile(es, pcol.Length);
      for i := start to end + 1
        invariant pcol[..] == ForwardAll(es[..i - start], v)
      {
        ghost var w := pcol[..];
        assert es[i - start] == columns[i - 1];
        FtranColumn(i, pcol);
        ForwardAllStep(es, i - start, v, w, pcol[..]);
      }
      assert es[..end + 1 - start] == es;
    }

    method FtranColumn(i: nat, pcol: array<real>)
      requires Valid() && 1 <= i <= etaSize
      requires pcol != etaValue && rows < pcol.Length
      modifies pcol
      ensures WellFormed(columns[i - 1], pcol.Length)
      ensures pcol[..] == Forward(columns[i - 1], old(pcol[..]))
    {
      ghost var e := columns[i - 1];
      assert Stored(e, etaRowNr[..], etaValue[..], etaColEnd[i - 1], etaColEnd[i]);
      var k := etaColEnd[i] - 1;
      assert Pivot(e) == Entry(etaRowNr[k], etaValue[k]);
      var r := etaRowNr[k];
      var theta := pcol[r];
      if theta != 0.0 {
        ScatterSlots(etaRowNr, etaValue, etaColEnd[i - 1], k, theta, pcol, Front(e));
      } else {
        ScatterZero(Front(e), pcol[..]);
      }
      pcol[r] := Prod(pcol[r], etaValue[k]);
    }

    /** Applies all columns to row, last to first, gathering each. */
    method Btran(row: array<real>)
      requires Valid() && row != etaValue && rows < row.Length
      modifies row
      ensures WellFormedFile(columns, row.Length)
      ensures row[..] == BackwardAll(columns, old(row[..]))
    {
      ghost var v := row[..];
      var i := etaSize;
      assert columns[..i] == columns;
      while i >= 1
        invariant 0 <= i <= etaSize
        invariant BackwardAll(columns[..i], row[..]) == BackwardAll(columns, v)
      {
        ghost var e := columns[i - 1];
        assert Stored(e, etaRowNr[..], etaValue[..], etaColEnd[i - 1], etaColEnd[i]);
        BackwardAllStep(columns, i - 1, row[..]);
        var k := etaColEnd[i] - 1;
        var f := GatherSlots(etaRowNr, etaValue, etaColEnd[i - 1], k + 1, row, e);
        row[etaRowNr[k]] := f;
        i := i - 1;
      }
    }

    method ResizeEta()
      requires Valid()
      modifies this
      ensures Valid() && columns == old(columns)
      ensures etaSize == old(etaSize) && etaColEnd == old(etaColEnd)
      ensures fresh(etaValue) && fresh(etaRowNr) && etaValue.Length == 2 * old(etaValue.Length)
    {
      var alloc := 2 * etaValue.Length;
      var value, rowNr := new real[alloc], new nat[alloc];
      forall i | 0 <= i < etaValue.Length { value[i] := etaValue[i]; }
      forall i | 0 <= i < etaRowNr.Length { rowNr[i] := etaRowNr[i]; }
      FileKept(columns, etaRowNr[..], etaValue[..], etaColEnd[..], rowNr[..], value[..], etaColEnd[..]);
      etaValue, etaRowNr := value, rowNr;
    }

    /** e is the column being built after the last finished one. */
    ghost predicate Pending(e: seq<Entry>)
      reads this, etaValue, etaRowNr, etaColEnd
    {
      && etaSize + 1 < etaColEnd.Length
      && Stored(e, etaRowNr[..], etaValue[..], etaColEnd[etaSize], etaColEnd[etaSize + 1])
    }

    /** Stores the non-zeros of pcol after the last column, pivot row last. */
    method CondenseCol(rowNr: nat, pcol: array<real>)
      requires Valid() && rowNr <= rows && pcol.Length == rows + 1 && pcol != etaValue
      requires etaSize + 1 < etaColEnd.Length
      requires etaColEnd[etaSize] + rows + 2 <= 2 * etaValue.Length
      modifies this, etaValue, etaRowNr, etaColEnd
      ensures Valid() && columns == old(columns)
      ensures etaSize == old(etaSize) && etaColEnd == old(etaColEnd)
      ensures etaValue == old(etaValue) || fresh(etaValue)
      ensures etaRowNr == old(etaRowNr) || fresh(etaRowNr)
      ensures pcol[..] == old(pcol[..]) && old(etaValue.Length) <= etaValue.Length
      ensures Pending(Condensed(pcol[..], rowNr))
    {
      var lo := etaColEnd[etaSize];
      if lo + rows + 2 > etaValue.Length {
        ResizeEta();
      }
      ghost var rowNr0, value0, colEnd0 := etaRowNr[..], etaValue[..], etaColEnd[..];
      var elnr := StoreCondensed(etaRowNr, etaValue, lo, rowNr, pcol);
      etaColEnd[etaSize + 1] := elnr;
      FileKept(columns, rowNr0, value0, colEnd0, etaRowNr[..], etaValue[..], etaColEnd[..]);
    }

    /** Turns the pending column into an eta column: pivot inverted, the rest scaled. */
    method AddEtaCol(ghost e: seq<Entry>)
      requires Valid() && Pending(e) && WellFormed(e, rows + 1) && Pivot(e).value != 0.0
      modifies this`etaSize, this`columns, etaValue
      ensures Valid() && etaSize == old(etaSize) + 1
      ensures columns == old(columns) + [Inverted(e, rows + 1)]
    {
      ghost var value0, n := etaValue[..], rows + 1;
      var j := etaColEnd[etaSize];
      etaSize := etaSize + 1;
      InvertSlots(etaRowNr, etaValue, j, etaColEnd[etaSize], e, n);
      FileKept(columns, etaRowNr[..], value0, etaColEnd[..], etaRowNr[..], etaValue[..], etaColEnd[..]);
      columns := columns + [Inverted(e, n)];
    }
  }
}
