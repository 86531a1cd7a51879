/**
 * Branch and bound as lp_solve's milpsolve does it: depth first, first non-integer variable,
 * floor or ceiling branch first. The simplex solver is a parameter, sound but otherwise arbitrary.
 */
module BranchBound {

  const OPTIMAL := 0
  const MILP_FAIL := 1
  const INFEASIBLE := 2
  const UNBOUNDED := 3
  const BREAK_BB := 8

  /** Slot 0 is the objective, slots rows + 1 .. sum the variables. */
  type Point = seq<real>

  /** What one relaxation returns; warm is the basis it stopped at, from which both children start. */
  datatype Relaxed<W> = Relaxed(status: int, solution: Point, warm: W)

  datatype Problem<!W(!new)> = Problem(
    rows: nat, sum: nat, mustBeInt: seq<bool>, maximise: bool, floorFirst: bool, epsilon: real,
    breakAtInt: bool, breakValue: real,
    feasible: Point -> bool,
    relax: (Point, Point, W) -> Relaxed<W>)
  {
    ghost predicate Shaped() {
      rows <= sum && |mustBeInt| == sum + 1 && 0.0 < epsilon
    }

    predicate NotWorse(a: real, b: real) {
      if maximise then a >= b else a <= b
    }

    ghost predicate InBox(x: Point, lo: Point, up: Point) {
      && |x| == |lo| == |up| == sum + 1
      && forall i | rows < i <= sum :: lo[i] <= x[i] <= up[i]
    }

    /** A point of the relaxation in a box. */
    ghost predicate Admissible(x: Point, lo: Point, up: Point) {
      feasible(x) && InBox(x, lo, up)
    }

    ghost predicate Integral(x: Point)
      requires Shaped() && |x| == sum + 1
    {
      forall i | rows < i <= sum && mustBeInt[i] :: IsWhole(x[i])
    }

    /** The points the program looks for. */
    ghost predicate Candidate(x: Point, lo: Point, up: Point)
      requires Shaped()
    {
      Admissible(x, lo, up) && Integral(x)
    }

    ghost predicate Beaten(m: real, lo: Point, up: Point) {
      exists x :: Admissible(x, lo, up) && !NotWorse(m, x[0])
    }

    /** Admissible points of every quality. */
    ghost predicate Unbounded(lo: Point, up: Point) {
      forall m: real :: Beaten(m, lo, up)
    }

    /** m is at least as good as every candidate in the box. */
    ghost predicate Bounds(m: real, lo: Point, up: Point)
      requires Shaped()
    {
      forall x | Candidate(x, lo, up) :: NotWorse(m, x[0])
    }

    /** There are admissible points, none better than m. */
    ghost predicate Hopeless(m: real, lo: Point, up: Point) {
      (exists x :: Admissible(x, lo, up)) && forall x | Admissible(x, lo, up) :: NotWorse(m, x[0])
    }

    /** The relaxation answers truthfully on this box. */
    ghost predicate SoundAt(lo: Point, up: Point, w: W) {
      var r := relax(lo, up, w);
      && (r.status == OPTIMAL ==>
            Admissible(r.solution, lo, up) && forall x | Admissible(x, lo, up) :: NotWorse(r.solution[0], x[0]))
      && (r.status == INFEASIBLE ==> forall x :: !Admissible(x, lo, up))
      && (r.status == UNBOUNDED ==> Unbounded(lo, up))
      && (r.status == OPTIMAL || r.status == INFEASIBLE || r.status == UNBOUNDED)
    }

    ghost predicate SoundRelaxation() {
      forall lo, up, w | |lo| == |up| == sum + 1 :: SoundAt(lo, up, w)
    }

    /** What the relaxation's answer says of the box. */
    lemma AnswerMeans(lo: Point, up: Point, w: W, m: real)
      requires SoundAt(lo, up, w)
      ensures var r := relax(lo, up, w);
        && (Unbounded(lo, up) <==> r.status == UNBOUNDED)
        && (Hopeless(m, lo, up) <==> r.status == OPTIMAL && NotWorse(m, r.solution[0]))
    {
      var r := relax(lo, up, w);
      var bound := if r.status == OPTIMAL then r.solution[0] else m;
      assert r.status == OPTIMAL ==> Admissible(r.solution, lo, up);
      assert Unbounded(lo, up) ==> Beaten(bound, lo, up) && Beaten(m, lo, up);
    }

    predicate IsInt(value: real) {
      var tmp := value - value.Floor as real;
      tmp < epsilon || tmp > 1.0 - epsilon
    }
  }

  function Ceil(x: real): (c: int)
    ensures c as real - 1.0 < x <= c as real
  {
    -(-x).Floor
  }

  predicate IsWhole(x: real) { x == x.Floor as real }

  /** Branching room left for one integer variable. */
  function Width(lo: real, up: real): nat {
    if lo > up then 0
    else
      2 * (up.Floor - Ceil(lo) + 1) + (if IsWhole(lo) then 0 else 1) + (if IsWhole(up) then 0 else 1)
  }

  /** Branching room left in slots k and above. */
  function TotalWidth<W(!new)>(p: Problem<W>, lo: Point, up: Point, k: nat): nat
    requires p.Shaped() && |lo| == |up| == p.sum + 1 && k <= p.sum + 1
    decreases p.sum + 1 - k
  {
    if k > p.sum then 0
    else (if p.rows < k && p.mustBeInt[k] then Width(lo[k], up[k]) else 0) + TotalWidth(p, lo, up, k + 1)
  }

  /** Narrowing one integer variable narrows the box. */
  lemma {:induction false} TotalWidthDecreases<W(!new)>(p: Problem<W>, lo: Point, up: Point, lo': Point, up': Point,
                                                 k: nat, j: nat)
    requires p.Shaped() && |lo| == |up| == |lo'| == |up'| == p.sum + 1 && k <= p.sum + 1
    requires p.rows < j <= p.sum && p.mustBeInt[j]
    requires forall i | 0 <= i <= p.sum && i != j :: lo'[i] == lo[i] && up'[i] == up[i]
    requires Width(lo'[j], up'[j]) < Width(lo[j], up[j])
    ensures if k <= j then TotalWidth(p, lo', up', k) < TotalWidth(p, lo, up, k)
            else TotalWidth(p, lo', up', k) == TotalWidth(p, lo, up, k)
    decreases p.sum + 1 - k
  {
    if k <= p.sum { TotalWidthDecreases(p, lo, up, lo', up', k + 1, j); }
  }

  lemma FloorUnique(n: int, x: real)
    requires n as real <= x < n as real + 1.0
    ensures x.Floor == n
  {
  }

  lemma FloorMonotone(x: real, y: real)
    requires x <= y
    ensures x.Floor <= y.Floor
  {
  }

  /** Cutting at a non-integer value strictly narrows both sides. */
  lemma WidthCut(lo: real, up: real, v: real)
    requires lo <= v <= up && !IsWhole(v)
    ensures Width(lo, (Ceil(v) - 1) as real) < Width(lo, up)
    ensures Width(Ceil(v) as real, up) < Width(lo, up)
  {
    var c := Ceil(v);
    FloorUnique(c, c as real);
    FloorUnique(c - 1, (c - 1) as real);
    FloorUnique(-c, -(c as real));
    CutArithmetic(lo, up, v, c);
  }

  lemma CutArithmetic(lo: real, up: real, v: real, c: int)
    requires lo <= v <= up && c as real - 1.0 < v < c as real
    ensures c - 1 <= up.Floor && (IsWhole(up) ==> c <= up.Floor)
    ensures Ceil(lo) <= c && (IsWhole(lo) ==> Ceil(lo) < c)
  {
    FloorMonotone((c - 1) as real, up);
    FloorMonotone(-(c as real), -lo);
    if IsWhole(lo) {
      FloorUnique(-lo.Floor, -lo);
    }
  }

  /** An integer lies on one side of any cut. */
  lemma IntegerSides(x: real, c: int)
    requires IsWhole(x)
    ensures x <= (c - 1) as real || x >= c as real
  {
    var n := x.Floor;
    IntOrder(n, c - 1);
    IntOrder(c, n);
  }

  lemma IntOrder(a: int, b: int)
    ensures a <= b ==> a as real <= b as real
  {
  }

  /** A box cut at c in slot k: the low side and the high side. */
  function LowSide(up: Point, k: nat, c: int): Point
    requires k < |up|
  {
    up[k := (c - 1) as real]
  }

  function HighSide(lo: Point, k: nat, c: int): Point
    requires k < |lo|
  {
    lo[k := c as real]
  }

  /** A value that bounds both sides of a cut, leaving out a side that is empty, bounds the box. */
  lemma BoundsSplit<W(!new)>(p: Problem<W>, m: real, lo: Point, up: Point, k: nat, c: int)
    requires p.Shaped() && |lo| == |up| == p.sum + 1 && p.rows < k <= p.sum && p.mustBeInt[k]
    requires (c - 1) as real < lo[k] || p.Bounds(m, lo, LowSide(up, k, c))
    requires c as real > up[k] || p.Bounds(m, HighSide(lo, k, c), up)
    ensures p.Bounds(m, lo, up)
  {
    forall x | p.Candidate(x, lo, up) ensures p.NotWorse(m, x[0]) {
      IntegerSides(x[k], c);
      if x[k] <= (c - 1) as real {
        assert p.Candidate(x, lo, LowSide(up, k, c));
      } else {
        assert p.Candidate(x, HighSide(lo, k, c), up);
      }
    }
  }

  /** Where the relaxation has an optimum, no part of the box is unbounded. */
  lemma OptimumNotUnbounded<W(!new)>(p: Problem<W>, m: real, lo: Point, up: Point, lo': Point, up': Point)
    requires |lo| == |up| == |lo'| == |up'| == p.sum + 1
    requires forall i | p.rows < i <= p.sum :: lo[i] <= lo'[i] && up'[i] <= up[i]
    requires forall x | p.Admissible(x, lo, up) :: p.NotWorse(m, x[0])
    ensures !p.Unbounded(lo', up')
  {
    if p.Unbounded(lo', up') {
      assert p.Beaten(m, lo', up');
      var x :| p.Admissible(x, lo', up') && !p.NotWorse(m, x[0]);
      assert p.Admissible(x, lo, up);
    }
  }

  class Solver<W(!new)> {
    const p: Problem<W>
    var bestSolution: Point
    var breakBb: bool
    var level: nat
    var maxLevel: nat
    var totalNodes: nat

    constructor (p: Problem<W>, objBound: real)
      requires p.Shaped()
      ensures this.p == p && |bestSolution| == p.sum + 1 && bestSolution[0] == objBound && !breakBb && level == 0
    {
      this.p := p;
      bestSolution := seq(p.sum + 1, _ => objBound);
      breakBb := false;
      level, maxLevel, totalNodes := 0, 1, 0;
    }

    /** The first variable that must be integer, is not, and is not fixed; 0 if there is none. */
    method FirstNonInteger(solution: Point, lowbo: Point, upbo: Point) returns (notint: nat)
      requires p.Shaped() && |solution| == |lowbo| == |upbo| == p.sum + 1
      ensures notint != 0 ==>
                && p.rows < notint <= p.sum && p.mustBeInt[notint]
                && !p.IsInt(solution[notint]) && lowbo[notint] != upbo[notint]
      ensures forall i | p.rows < i <= p.sum && (notint == 0 || i < notint) && p.mustBeInt[i] ::
                p.IsInt(solution[i]) || lowbo[i] == upbo[i]
    {
      notint := 0;
      var i := p.rows + 1;
      while i <= p.sum && notint == 0
        invariant p.rows < i <= p.sum + 1
        invariant notint != 0 ==>
                    && notint == i - 1 && p.rows < notint && p.mustBeInt[notint]
                    && !p.IsInt(solution[notint]) && lowbo[notint] != upbo[notint]
        invariant forall k | p.rows < k < i && k != notint && p.mustBeInt[k] ::
                  p.IsInt(solution[k]) || lowbo[k] == upbo[k]
      {
        if p.mustBeInt[i] && !p.IsInt(solution[i]) {
          if lowbo[i] != upbo[i] {
            notint := i;
          }
        }
        i := i + 1;
      }
    }

    /** x may replace the incumbent: strictly better, admissible, and integer where asked for or fixed by the caller. */
    ghost predicate Accepted(x: Point, before: real, lowbo: Point, upbo: Point)
      requires p.Shaped()
    {
      && p.Admissible(x, lowbo, upbo)
      && p.NotWorse(x[0], before) && x[0] != before
      && forall i | p.rows < i <= p.sum && p.mustBeInt[i] :: p.IsInt(x[i]) || lowbo[i] == upbo[i]
    }

    /** What one call promises about the incumbent, given its value before. */
    ghost predicate Outcome(status: int, before: Point, after: Point, lowbo: Point, upbo: Point)
      requires p.Shaped() && |before| == |after| == p.sum + 1
    {
      if status == OPTIMAL then Accepted(after, before[0], lowbo, upbo) else after == before
    }

    /** What it promises about everything else in the box, unless the search was broken off. */
    ghost predicate Complete(status: int, after: real, lowbo: Point, upbo: Point)
      requires p.Shaped()
    {
      (status == UNBOUNDED && p.Unbounded(lowbo, upbo)) || p.Bounds(after, lowbo, upbo)
    }

    /**
     * What the status means, m and after being the incumbent's value before and after: INFEASIBLE is what
     * remains when the box is not unbounded, is worth searching, and nothing better was found.
     */
    ghost predicate Means(status: int, m: real, after: real, lowbo: Point, upbo: Point) {
      && (status == UNBOUNDED <==> p.Unbounded(lowbo, upbo))
      && (status == MILP_FAIL <==> p.Hopeless(m, lowbo, upbo))
      && (status == OPTIMAL <==> after != m)
      && (status == OPTIMAL || status == MILP_FAIL || status == INFEASIBLE || status == UNBOUNDED)
    }

    method MilpSolve(upbo: Point, lowbo: Point, warm: W) returns (status: int)
      requires p.Shaped() && p.SoundRelaxation()
      requires |upbo| == |lowbo| == |bestSolution| == p.sum + 1
      modifies this
      ensures |bestSolution| == p.sum + 1 && level == old(level)
      ensures old(breakBb) ==> breakBb && status == BREAK_BB
      ensures p.NotWorse(bestSolution[0], old(bestSolution[0]))
      ensures Outcome(status, old(bestSolution), bestSolution, lowbo, upbo)
      ensures !breakBb ==> Complete(status, bestSolution[0], lowbo, upbo)
      ensures !old(breakBb) ==> Means(status, old(bestSolution)[0], bestSolution[0], lowbo, upbo)
      ensures !old(breakBb) ==> (breakBb <==> status == OPTIMAL && Broken(bestSolution[0]))
      decreases TotalWidth(p, lowbo, upbo, 0), 2
    {
      if breakBb {
        return BREAK_BB;
      }
      level := level + 1;
      totalNodes := totalNodes + 1;
      if level > maxLevel {
        maxLevel := level;
      }
      var relaxed := p.relax(lowbo, upbo, warm);
      assert p.SoundAt(lowbo, upbo, warm);
      p.AnswerMeans(lowbo, upbo, warm, bestSolution[0]);
      status := relaxed.status;
      if status == OPTIMAL {
        var solution := relaxed.solution;
        if p.NotWorse(bestSolution[0], solution[0]) {
          level := level - 1;
          return MILP_FAIL;
        }
        var notint := FirstNonInteger(solution, lowbo, upbo);
        if notint != 0 {
          status := Branch(upbo, lowbo, solution, notint, relaxed.warm);
        } else {
          bestSolution := solution;
          if p.breakAtInt && bestSolution[0] != p.breakValue && p.NotWorse(bestSolution[0], p.breakValue) {
            breakBb := true;
          }
        }
      }
      level := level - 1;
    }

    /** What is acceptable on one side of a cut is acceptable in the whole box. */
    lemma AcceptedWider(x: Point, before: real, lo: Point, up: Point, lo': Point, up': Point, k: nat, c: int)
      requires p.Shaped() && |lo| == |up| == |lo'| == |up'| == p.sum + 1 && p.rows < k <= p.sum
      requires lo[k] <= lo'[k] && up'[k] <= up[k]
      requires forall i | p.rows < i <= p.sum && i != k :: lo'[i] == lo[i] && up'[i] == up[i]
      requires lo'[k] == c as real || up'[k] == c as real
      requires Accepted(x, before, lo', up')
      ensures Accepted(x, before, lo, up)
    {
    }

    /** The subproblem below the cut, unless the new bound conflicts with the old one. */
    method Low(upbo: Point, lowbo: Point, solution: Point, notint: nat, cut: int, warm: W) returns (status: int)
      requires Cut(upbo, lowbo, solution, notint, cut) && |bestSolution| == p.sum + 1
      modifies this
      ensures Side(status, old(bestSolution), bestSolution, lowbo, upbo, old(breakBb), breakBb)
      ensures level == old(level) && (status == OPTIMAL ==> bestSolution[notint] <= (cut - 1) as real)
      ensures breakBb || (cut - 1) as real < lowbo[notint]
              || p.Bounds(bestSolution[0], lowbo, LowSide(upbo, notint, cut))
      decreases TotalWidth(p, lowbo, upbo, 0), 0
    {
      var newBound := (cut - 1) as real;
      if newBound < lowbo[notint] {
        return MILP_FAIL;
      }
      ghost var before := bestSolution[0];
      var newUpbo := upbo[notint := newBound];
      CutNarrows(upbo, lowbo, solution, notint, cut);
      status := MilpSolve(newUpbo, lowbo, warm);
      OptimumNotUnbounded(p, solution[0], lowbo, upbo, lowbo, newUpbo);
      if status == OPTIMAL {
        AcceptedWider(bestSolution, before, lowbo, upbo, lowbo, newUpbo, notint, cut - 1);
      }
    }

    /** The subproblem above the cut. */
    method High(upbo: Point, lowbo: Point, solution: Point, notint: nat, cut: int, warm: W) returns (status: int)
      requires Cut(upbo, lowbo, solution, notint, cut) && |bestSolution| == p.sum + 1
      modifies this
      ensures Side(status, old(bestSolution), bestSolution, lowbo, upbo, old(breakBb), breakBb)
      ensures level == old(level) && (status == OPTIMAL ==> bestSolution[notint] >= cut as real)
      ensures breakBb || cut as real > upbo[notint] || p.Bounds(bestSolution[0], HighSide(lowbo, notint, cut), upbo)
      decreases TotalWidth(p, lowbo, upbo, 0), 0
    {
      var newBound := cut as real;
      if newBound > upbo[notint] {
        return MILP_FAIL;
      }
      ghost var before := bestSolution[0];
      var newLowbo := lowbo[notint := newBound];
      CutNarrows(upbo, lowbo, solution, notint, cut);
      status := MilpSolve(upbo, newLowbo, warm);
      OptimumNotUnbounded(p, solution[0], lowbo, upbo, newLowbo, upbo);
      if status == OPTIMAL {
        AcceptedWider(bestSolution, before, lowbo, upbo, newLowbo, upbo, notint, cut);
      }
    }

    /** A relaxation optimum of the box that is not integer in slot notint, and its ceiling there. */
    ghost predicate Cut(upbo: Point, lowbo: Point, solution: Point, notint: nat, cut: int) {
      && p.Shaped() && p.SoundRelaxation()
      && |upbo| == |lowbo| == p.sum + 1
      && p.Admissible(solution, lowbo, upbo)
      && (forall x | p.Admissible(x, lowbo, upbo) :: p.NotWorse(solution[0], x[0]))
      && p.rows < notint <= p.sum && p.mustBeInt[notint] && !p.IsInt(solution[notint])
      && cut == Ceil(solution[notint])
    }

    lemma CutNarrows(upbo: Point, lowbo: Point, solution: Point, notint: nat, cut: int)
      requires Cut(upbo, lowbo, solution, notint, cut)
      ensures lowbo[notint] <= cut as real && (cut - 1) as real <= upbo[notint]
      ensures TotalWidth(p, lowbo, LowSide(upbo, notint, cut), 0) < TotalWidth(p, lowbo, upbo, 0)
      ensures TotalWidth(p, HighSide(lowbo, notint, cut), upbo, 0) < TotalWidth(p, lowbo, upbo, 0)
    {
      WidthCut(lowbo[notint], upbo[notint], solution[notint]);
      TotalWidthDecreases(p, lowbo, upbo, lowbo, LowSide(upbo, notint, cut), 0, notint);
      TotalWidthDecreases(p, lowbo, upbo, HighSide(lowbo, notint, cut), upbo, 0, notint);
    }

    /** What one side of a cut promises towards the whole box. */
    ghost predicate Side(status: int, before: Point, after: Point, lowbo: Point, upbo: Point, broken: bool,
                         breaks: bool)
      requires p.Shaped() && |before| == p.sum + 1
    {
      && |after| == p.sum + 1
      && p.NotWorse(after[0], before[0])
      && Outcome(status, before, after, lowbo, upbo)
      && (broken ==> breaks && status != OPTIMAL)
      && (!broken ==> (breaks <==> status == OPTIMAL && Broken(after[0])))
    }

    /** m is strictly better than every candidate in the box. */
    ghost predicate Beats(m: real, lo: Point, up: Point)
      requires p.Shaped()
    {
      forall x | p.Candidate(x, lo, up) :: p.NotWorse(m, x[0]) && m != x[0]
    }

    /** The search is broken off exactly when a new incumbent beats the break value. */
    ghost predicate Broken(m: real) {
      p.breakAtInt && m != p.breakValue && p.NotWorse(m, p.breakValue)
    }

    /** A new incumbent from the side searched last is strictly better than anything on the other side. */
    ghost predicate First(upbo: Point, lowbo: Point, notint: nat, cut: int, best: Point)
      requires p.Shaped() && |upbo| == |lowbo| == |best| == p.sum + 1 && notint <= p.sum
    {
      if p.floorFirst then
        || best[notint] <= (cut - 1) as real
        || (best[notint] >= cut as real && Beats(best[0], lowbo, LowSide(upbo, notint, cut)))
      else
        || best[notint] >= cut as real
        || (best[notint] <= (cut - 1) as real && Beats(best[0], HighSide(lowbo, notint, cut), upbo))
    }

    /** The two subproblems of a cut at the first non-integer variable, in the order asked for. */
    method Branch(upbo: Point, lowbo: Point, solution: Point, notint: nat, warm: W) returns (status: int)
      requires notint < |solution| && Cut(upbo, lowbo, solution, notint, Ceil(solution[notint])) && !breakBb
      requires |bestSolution| == p.sum + 1
      modifies this
      ensures |bestSolution| == p.sum + 1 && level == old(level)
      ensures status == OPTIMAL || status == INFEASIBLE
      ensures p.NotWorse(bestSolution[0], old(bestSolution[0]))
      ensures Outcome(status, old(bestSolution), bestSolution, lowbo, upbo)
      ensures !breakBb ==> p.Bounds(bestSolution[0], lowbo, upbo)
      ensures breakBb <==> status == OPTIMAL && Broken(bestSolution[0])
      ensures status == OPTIMAL ==> First(upbo, lowbo, notint, Ceil(solution[notint]), bestSolution)
      decreases TotalWidth(p, lowbo, upbo, 0), 1
    {
      var cut := Ceil(solution[notint]);
      var resOne, resTwo := MILP_FAIL, MILP_FAIL;
      if p.floorFirst {
        resOne := Low(upbo, lowbo, solution, notint, cut, warm);
        resTwo := High(upbo, lowbo, solution, notint, cut, warm);
      } else {
        resOne := High(upbo, lowbo, solution, notint, cut, warm);
        resTwo := Low(upbo, lowbo, solution, notint, cut, warm);
      }
      status := if resOne != OPTIMAL && resTwo != OPTIMAL then INFEASIBLE else OPTIMAL;
      if !breakBb {
        BoundsSplit(p, bestSolution[0], lowbo, upbo, notint, cut);
      }
    }

    /** The value the incumbent starts from: the caller's bound, or nothing found yet. */
    function StartValue(objBound: real, infinite: real): real {
      if p.maximise && objBound == infinite then -infinite
      else if !p.maximise && objBound == -infinite then infinite
      else objBound
    }

    /** The whole search, from the original box. */
    method DoSolve(objBound: real, infinite: real, origUpbo: Point, origLowbo: Point, warm: W) returns (status: int)
      requires p.Shaped() && p.SoundRelaxation()
      requires |origUpbo| == |origLowbo| == |bestSolution| == p.sum + 1
      modifies this
      ensures |bestSolution| == p.sum + 1
      ensures status == OPTIMAL ==> Accepted(bestSolution, StartValue(objBound, infinite), origLowbo, origUpbo)
      ensures status != OPTIMAL ==> bestSolution[0] == StartValue(objBound, infinite)
      ensures !breakBb ==> Complete(status, bestSolution[0], origLowbo, origUpbo)
      ensures Means(status, StartValue(objBound, infinite), bestSolution[0], origLowbo, origUpbo)
      ensures breakBb <==> status == OPTIMAL && Broken(bestSolution[0])
    {
      if p.maximise && objBound == infinite {
        bestSolution := bestSolution[0 := -infinite];
      } else if !p.maximise && objBound == -infinite {
        bestSolution := bestSolution[0 := infinite];
      } else {
        bestSolution := bestSolution[0 := objBound];
      }
      level := 0;
      breakBb := false;
      status := MilpSolve(origUpbo, origLowbo, warm);
    }

    /** With whole bounds on the integer variables, every accepted point is integer to within epsilon. */
    lemma AcceptedIsInteger(x: Point, before: real, lowbo: Point, upbo: Point)
      requires p.Shaped() && Accepted(x, before, lowbo, upbo)
      requires |lowbo| == |upbo| == p.sum + 1
      requires forall i | p.rows < i <= p.sum && p.mustBeInt[i] :: IsWhole(lowbo[i]) && IsWhole(upbo[i])
      ensures forall i | p.rows < i <= p.sum && p.mustBeInt[i] :: p.IsInt(x[i])
    {
    }
  }
}
