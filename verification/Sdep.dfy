/** The dependency table between a sender's and a receiver's phases, and its two lookups. */
module Sdeps {

  /** How often the sender and the receiver run, initially and in one steady state. */
  datatype Counts = Counts(initSrc: int, initDst: int, steadySrc: int, steadyDst: int) {
    function LastDst(): int { initDst + steadyDst }

    function LastSrc(): int { initSrc + steadySrc }
  }

  /** The table fits the counts and, continued periodically, never decreases. */
  ghost predicate WellFormed(c: Counts, t: seq<int>) {
    && c.initDst >= 0 && c.steadySrc > 0 && c.steadyDst > 0
    && |t| == c.LastDst() + 1
    && t[0] == 0 && t[c.initDst] <= c.initSrc && t[c.LastDst()] == c.LastSrc()
    && t[c.initDst + 1] >= c.initSrc
    && Rising(t)
  }

  ghost predicate Rising(t: seq<int>) {
    forall i, j :: 0 <= i <= j < |t| ==> t[i] <= t[j]
  }

  /** The sender's phase for the receiver's phase n: the table, continued one steady state at a time. */
  ghost function SrcPhase(c: Counts, t: seq<int>, n: nat): int
    requires WellFormed(c, t)
  {
    if n <= c.LastDst() then t[n] else SrcPhase(c, t, n - c.steadyDst) + c.steadySrc
  }

  /** The first entry from i on that reaches s. */
  ghost function FirstReaching(t: seq<int>, s: int, i: nat): (r: nat)
    requires i < |t| && t[|t| - 1] >= s
    ensures i <= r < |t| && t[r] >= s
    ensures forall j :: i <= j < r ==> t[j] < s
    decreases |t| - i
  {
    if t[i] >= s then i else FirstReaching(t, s, i + 1)
  }

  /** The receiver's phase for the sender's phase s, by the same continuation. */
  ghost function DstPhase(c: Counts, t: seq<int>, s: int): int
    requires WellFormed(c, t) && s > 0
    decreases s
  {
    if s <= c.LastSrc() then FirstReaching(t, s, 0) else DstPhase(c, t, s - c.steadySrc) + c.steadyDst
  }

  // ---- The connection ----

  lemma {:induction false} SrcPhaseAfterTable(c: Counts, t: seq<int>, n: nat)
    requires WellFormed(c, t) && n > c.initDst
    ensures SrcPhase(c, t, n) >= c.initSrc
    ensures n >= c.LastDst() ==> SrcPhase(c, t, n) >= c.LastSrc()
  {
    if n > c.LastDst() { SrcPhaseAfterTable(c, t, n - c.steadyDst); }
  }

  lemma {:induction false} DstPhaseAfterInit(c: Counts, t: seq<int>, s: int)
    requires WellFormed(c, t) && s > 0
    ensures DstPhase(c, t, s) >= 1
    ensures s > c.initSrc ==> DstPhase(c, t, s) > c.initDst
    decreases s
  {
    if s > c.LastSrc() { DstPhaseAfterInit(c, t, s - c.steadySrc); }
  }

  /** The two lookups are adjoint: the receiver's phase n waits for the sender's phase s exactly from DstPhase(s) on. */
  lemma {:induction false} Connection(c: Counts, t: seq<int>, n: nat, s: int)
    requires WellFormed(c, t) && s > 0
    ensures SrcPhase(c, t, n) >= s <==> n >= DstPhase(c, t, s)
    decreases s
  {
    if s <= c.LastSrc() {
      if n > c.LastDst() {
        SrcPhaseAfterTable(c, t, n);
      } else {
        assert n >= FirstReaching(t, s, 0) ==> t[n] >= s;
      }
    } else if n <= c.LastDst() {
      assert t[n] <= t[c.LastDst()];
      DstPhaseAfterInit(c, t, s - c.steadySrc);
    } else {
      Connection(c, t, n - c.steadyDst, s - c.steadySrc);
    }
  }

  /** Later phases never depend on earlier ones, in either direction. */
  lemma Monotone(c: Counts, t: seq<int>, n: nat, m: nat, s: int, u: int)
    requires WellFormed(c, t) && n <= m && 0 < s <= u
    ensures SrcPhase(c, t, n) <= SrcPhase(c, t, m)
    ensures DstPhase(c, t, s) <= DstPhase(c, t, u)
  {
    NonNegative(c, t, m);
    if SrcPhase(c, t, n) > 0 {
      Connection(c, t, n, SrcPhase(c, t, n));
      Connection(c, t, m, SrcPhase(c, t, n));
    }
    DstPhaseAfterInit(c, t, u);
    Connection(c, t, DstPhase(c, t, u), u);
    Connection(c, t, DstPhase(c, t, u), s);
  }

  lemma {:induction false} NonNegative(c: Counts, t: seq<int>, n: nat)
    requires WellFormed(c, t)
    ensures SrcPhase(c, t, n) >= 0
  {
    if n > c.LastDst() { NonNegative(c, t, n - c.steadyDst); }
  }

  // ---- What the class computes ----

  /** What the second lookup answers: sender phases up to 0 are answered with 1 and a warning. */
  ghost function Answer(c: Counts, t: seq<int>, s: int): int
    requires WellFormed(c, t)
  {
    if s <= 0 then 1 else DstPhase(c, t, s)
  }

  /** With that answer the connection fails at the receiver's phase 0 and nowhere else. */
  lemma AnswerConnects(c: Counts, t: seq<int>, n: nat, s: int)
    requires WellFormed(c, t)
    ensures (SrcPhase(c, t, n) >= s <==> n >= Answer(c, t, s)) <==> s > 0 || n > 0
  {
    NonNegative(c, t, n);
    if s > 0 { Connection(c, t, n, s); }
  }

  lemma {:induction false} SrcPhaseClosed(c: Counts, t: seq<int>, n: nat, k: nat, r: nat)
    requires WellFormed(c, t)
    requires n == c.initDst + 1 + r + k * c.steadyDst && r < c.steadyDst
    ensures SrcPhase(c, t, n) == t[c.initDst + 1 + r] + k * c.steadySrc
  {
    if k > 0 {
      OneLess(c.steadyDst, k);
      OneLess(c.steadySrc, k);
      SrcPhaseClosed(c, t, n - c.steadyDst, k - 1, r);
    }
  }

  lemma {:induction false} DstPhaseClosed(c: Counts, t: seq<int>, s: int, k: nat, r: int)
    requires WellFormed(c, t)
    requires s == r + k * c.steadySrc && c.initSrc < r
    ensures r > 0 && s > 0 && DstPhase(c, t, s) == DstPhase(c, t, r) + k * c.steadyDst
    decreases k
  {
    assert t[0] <= t[c.initDst];
    if k == 0 {
      assert s == r;
    } else {
      OneLess(c.steadySrc, k);
      OneLess(c.steadyDst, k);
      DstPhaseClosed(c, t, s - c.steadySrc, k - 1, r);
    }
  }

  lemma OneLess(d: int, k: nat)
    requires d > 0 && k > 0
    ensures k * d == (k - 1) * d + d && (k - 1) * d >= 0
  {
  }

  class Sdep {
    const counts: Counts
    const table: array<int>

    constructor (initSrc: int, initDst: int, steadySrc: int, steadyDst: int)
      requires initDst + steadyDst + 1 >= 0
      ensures counts == Counts(initSrc, initDst, steadySrc, steadyDst)
      ensures fresh(table) && table.Length == initDst + steadyDst + 1
    {
      counts := Counts(initSrc, initDst, steadySrc, steadyDst);
      table := new int[initDst + steadyDst + 1];
    }

    method GetSrcPhase4DstPhase(n: nat) returns (s: int)
      requires WellFormed(counts, table[..])
      ensures s == SrcPhase(counts, table[..], n)
    {
      ghost var t := table[..];
      if n < counts.initDst + 1 {
        s := table[n];
      } else {
        var steadyStates := (n - (counts.initDst + 1)) / counts.steadyDst;
        var smaller := (n - (counts.initDst + 1)) % counts.steadyDst + counts.initDst + 1;
        SrcPhaseClosed(counts, t, n, steadyStates, smaller - counts.initDst - 1);
        s := table[smaller] + steadyStates * counts.steadySrc;
      }
    }

    /** The loop keeps the low entry below the wanted phase, so the closing test for equality never succeeds. */
    method Search(s: int) returns (n: int)
      requires WellFormed(counts, table[..]) && 0 < s <= counts.LastSrc()
      ensures n == DstPhase(counts, table[..], s)
    {
      ghost var t := table[..];
      var low, high := 0, counts.initDst + counts.steadyDst;
      while high - low > 1
        invariant 0 <= low < high < table.Length
        invariant table[low] < s <= table[high]
      {
        var mid := (low + high) / 2;
        if table[mid] >= s {
          high := mid;
        } else {
          low := mid;
        }
      }
      FirstIs(t, s, high);
      n := if table[low] == s then low else high;
    }

    method GetDstPhase4SrcPhase(s: int) returns (n: int)
      requires WellFormed(counts, table[..])
      ensures n == Answer(counts, table[..], s)
    {
      if s <= 0 {
        return 1;
      }
      var addDst, rest := 0, s;
      if s >= counts.initSrc + counts.steadySrc + 1 {
        var fullExecs := (s - counts.initSrc - 1) / counts.steadySrc;
        Reduced(s, counts.initSrc, counts.steadySrc);
        DstPhaseClosed(counts, table[..], s, fullExecs, s - fullExecs * counts.steadySrc);
        addDst := fullExecs * counts.steadyDst;
        rest := s - fullExecs * counts.steadySrc;
      }
      n := Search(rest);
      n := n + addDst;
    }
  }

  lemma FirstIs(t: seq<int>, s: int, r: nat)
    requires 0 < r < |t| && Rising(t) && t[r - 1] < s <= t[r]
    ensures t[|t| - 1] >= s && FirstReaching(t, s, 0) == r
  {
  }

  lemma Reduced(s: int, i: int, d: int)
    requires d > 0 && s >= i + d + 1
    ensures var k := (s - i - 1) / d; k >= 0 && i < s - k * d <= i + d
  {
  }
}
