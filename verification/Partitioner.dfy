/** The greedy cut of a stream graph into machines: ccp::find_partition. */
module Partitioner {

  /** Threads 0 .. n - 1; ins and outs list the two ends of the same connections. */
  datatype Graph = Graph(ins: seq<seq<nat>>, outs: seq<seq<nat>>) {

    function Size(): nat { |ins| }

    ghost predicate Valid() {
      && |outs| == |ins|
      && (forall t | 0 <= t < |ins| :: forall f | f in ins[t] :: f < |ins|)
      && (forall f | 0 <= f < |ins| :: forall t | t in outs[f] :: t < |ins|)
      && (forall f, t | 0 <= f < |ins| && 0 <= t < |ins| :: f in ins[t] <==> t in outs[f])
      && (forall f | 0 <= f < |ins| :: Distinct(outs[f]))
    }

    /** Some numbering of the threads increases along every connection. */
    ghost predicate Acyclic() {
      exists rank: seq<nat> :: Ranks(rank)
    }

    ghost predicate Ranks(rank: seq<nat>) {
      |rank| == |ins| && forall t, f | 0 <= t < |ins| && f in ins[t] :: f < |ins| && rank[f] < rank[t]
    }
  }

  ghost predicate Distinct(s: seq<nat>) {
    forall i, j | 0 <= i < j < |s| :: s[i] != s[j]
  }

  /** The order threads are visited in: every thread once. */
  ghost predicate Lists(threads: seq<nat>, n: nat) {
    && |threads| == n && Distinct(threads) && (forall i | 0 <= i < n :: threads[i] < n)
    && forall t: nat | t < n :: t in threads
  }

  ghost function Threads(n: nat): (s: set<nat>)
    ensures forall t: nat :: t in s <==> t < n
  {
    if n == 0 then {} else Threads(n - 1) + {n - 1}
  }

  /** Work of the threads below k that are in s. */
  function Load(usage: seq<int>, s: set<nat>, k: nat): int
    requires k <= |usage|
  {
    if k == 0 then 0 else Load(usage, s, k - 1) + if k - 1 in s then usage[k - 1] else 0
  }

  lemma {:induction false} LoadAdd(usage: seq<int>, s: set<nat>, t: nat, k: nat)
    requires k <= |usage| && t < |usage| && t !in s
    ensures Load(usage, s + {t}, k) == Load(usage, s, k) + if t < k then usage[t] else 0
  {
    if k != 0 { LoadAdd(usage, s, t, k - 1); }
  }

  lemma {:induction false} LoadZero(usage: seq<int>, s: set<nat>, k: nat)
    requires k <= |usage| && forall t | 0 <= t < |usage| :: usage[t] >= 0
    ensures Load(usage, s, k) >= 0
    ensures Load(usage, s, k) == 0 ==> forall t: nat | t < k && t in s :: usage[t] == 0
  {
    if k != 0 { LoadZero(usage, s, k - 1); }
  }

  /** The threads placed on machine k. */
  ghost function Members(placed: set<nat>, part: map<nat, nat>, k: nat): set<nat>
    requires placed <= part.Keys
  {
    set t | t in placed && part[t] == k
  }

  /** At most one of these threads has any work. */
  ghost predicate OneWorker(usage: seq<int>, s: set<nat>) {
    forall a: nat, b: nat | a in s && b in s && a < |usage| && b < |usage| && a != b :: usage[a] == 0 || usage[b] == 0
  }

  /** A machine's load is below its target, or it holds a single thread with work. */
  ghost predicate LoadOk(usage: seq<int>, s: set<nat>, target: int) {
    Load(usage, s, |usage|) < target || OneWorker(usage, s)
  }

  /** C's conversion of a double to an int. */
  function Trunc(x: real): (r: int)
    ensures if x >= 0.0 then r as real <= x < r as real + 1.0 else r as real - 1.0 < x <= r as real
  {
    if x >= 0.0 then x.Floor else -(-x).Floor
  }

  /** A machine's share of the work, rounded towards zero. */
  function Target(total: int, weight: real): (r: int)
    ensures var x := total as real * weight;
      if x >= 0.0 then r as real <= x < r as real + 1.0 else r as real - 1.0 < x <= r as real
  {
    Trunc(total as real * weight)
  }

  /** The whole state of the greedy cut while machine p is being filled. */
  datatype State = State(added: seq<bool>, placed: set<nat>, part: map<nat, nat>, queue: seq<nat>) {

    ghost predicate Ok(g: Graph, p: nat) {
      && g.Valid() && |added| == g.Size() && placed <= part.Keys
      && (forall t | 0 <= t < |added| && added[t] :: t in placed)
      && forall u: nat :: OkAt(u, g, p)
    }

    /** The bookkeeping of the queue. (The unused parameter keeps it folded until a proof names it.) */
    ghost predicate OkAt(unused: nat, g: Graph, p: nat)
      requires placed <= part.Keys
    {
      && (forall t | t in placed :: t < g.Size() && part[t] <= p)
      && (forall t | t in queue :: t in placed && t < |added| && !added[t])
      && Distinct(queue)
      && (forall t | t in placed :: t < |added| && (added[t] || t in queue))
      && (forall t | t in placed :: t < g.Size() && PredsDone(g, t))
    }

    /** All predecessors of t are done, on machines no later than t's. */
    ghost predicate PredsDone(g: Graph, t: nat)
      requires t < g.Size() && t in part
    {
      forall f | f in g.ins[t] :: f < |added| && added[f] && f in part && part[f] <= part[t]
    }

    ghost predicate AllPrev(g: Graph, t: nat)
      requires t < g.Size()
    {
      forall f | f in g.ins[t] :: f < |added| && added[f]
    }

    /** Placing t on machine p and queueing it. */
    ghost function Push(t: nat, p: nat): State {
      State(added, placed + {t}, part[t := p], queue + [t])
    }

    /** Taking the front of the queue and marking it. */
    ghost function Pop(): State
      requires |queue| > 0 && queue[0] < |added|
    {
      State(added[queue[0] := true], placed, part, queue[1..])
    }
  }

  /** Once the queue is empty the placed threads are the marked ones. */
  lemma EmptyQueue(s: State, g: Graph, p: nat)
    requires s.Ok(g, p) && s.queue == []
    ensures forall t: nat | t < |s.added| :: t in s.placed <==> s.added[t]
  {
    assert s.OkAt(0, g, p);
  }

  lemma PushOk(s: State, g: Graph, p: nat, t: nat)
    requires s.Ok(g, p) && t < g.Size() && t !in s.placed && s.AllPrev(g, t)
    ensures s.Push(t, p).Ok(g, p)
    ensures Members(s.Push(t, p).placed, s.Push(t, p).part, p) == Members(s.placed, s.part, p) + {t}
    ensures forall k | k != p :: Members(s.Push(t, p).placed, s.Push(t, p).part, k) == Members(s.placed, s.part, k)
  {
    assert s.OkAt(0, g, p);
    var s' := s.Push(t, p);
    forall u | u in s'.placed ensures s'.PredsDone(g, u) {
      if u != t { assert s.PredsDone(g, u); }
    }
    forall u | u in s'.placed ensures s'.added[u] || u in s'.queue {
      if u == t { assert s'.queue[|s.queue|] == t; } else if u in s.queue {
        var i :| 0 <= i < |s.queue| && s.queue[i] == u;
        assert s'.queue[i] == u;
      }
    }
    forall u: nat ensures s'.OkAt(u, g, p) { }
  }

  lemma PopOk(s: State, g: Graph, p: nat)
    requires s.Ok(g, p) && |s.queue| > 0
    ensures s.queue[0] < |s.added| && s.Pop().Ok(g, p)
  {
    assert s.OkAt(0, g, p);
    var t := s.queue[0];
    assert t in s.queue;
    var s' := s.Pop();
    forall u | u in s'.queue ensures u in s'.placed && u < |s'.added| && !s'.added[u] {
      var i :| 0 <= i < |s'.queue| && s'.queue[i] == u;
      assert s.queue[i + 1] == u;
    }
    forall u | u in s'.placed ensures s'.added[u] || u in s'.queue {
      if u != t && u in s.queue {
        var i :| 0 <= i < |s.queue| && s.queue[i] == u;
        assert s'.queue[i - 1] == u;
      }
    }
    forall u | u in s'.placed ensures s'.PredsDone(g, u) { assert s.PredsDone(g, u); }
    forall u: nat ensures s'.OkAt(u, g, p) { }
  }

  /** Between two moments of filling machine p, threads have only been added, and only to p. */
  ghost predicate Grown(a: State, b: State, p: nat) {
    && a.placed <= b.placed && a.placed <= a.part.Keys && b.placed <= b.part.Keys
    && (forall t | t in a.placed :: b.part[t] == a.part[t])
    && (forall t | t in b.placed && t !in a.placed :: b.part[t] == p)
  }

  lemma GrownMembers(a: State, b: State, p: nat, k: nat)
    requires Grown(a, b, p) && k != p
    ensures Members(a.placed, a.part, k) == Members(b.placed, b.part, k)
  {
  }

  /** curSum is the load of machine p, which respects the target unless p is the last machine. */
  ghost predicate Filling(s: State, g: Graph, usage: seq<int>, p: nat, last: bool, target: int, curSum: int) {
    && s.Ok(g, p) && |usage| == g.Size()
    && (forall t | 0 <= t < |usage| :: usage[t] >= 0)
    && curSum == Load(usage, Members(s.placed, s.part, p), |usage|)
    && (last || LoadOk(usage, Members(s.placed, s.part, p), target))
  }

  /** Every thread still to be placed waits for a predecessor. */
  ghost predicate AllWaiting(s: State, g: Graph) {
    forall t: nat | t < g.Size() && t !in s.placed :: !s.AllPrev(g, t)
  }

  /** Thread t is not ready, or it does not fit: the machine is not the last and its target would be reached. */
  ghost predicate NoRoom(s: State, g: Graph, usage: seq<int>, last: bool, target: int, curSum: int, t: nat)
    requires t < g.Size() == |usage|
  {
    s.AllPrev(g, t) ==> !last && curSum + usage[t] >= target
  }

  /** No thread that is ready and still to be placed fits. */
  ghost predicate NothingFits(s: State, g: Graph, usage: seq<int>, last: bool, target: int, curSum: int)
    requires |usage| == g.Size()
  {
    forall t: nat | t < g.Size() && t !in s.placed :: NoRoom(s, g, usage, last, target, curSum, t)
  }

  lemma FillingPush(s: State, g: Graph, usage: seq<int>, p: nat, last: bool, target: int, curSum: int, t: nat)
    requires Filling(s, g, usage, p, last, target, curSum)
    requires t < g.Size() && t !in s.placed && s.AllPrev(g, t)
    requires last || curSum == 0 || curSum + usage[t] < target
    ensures Filling(s.Push(t, p), g, usage, p, last, target, curSum + usage[t])
    ensures Grown(s, s.Push(t, p), p)
  {
    var m := Members(s.placed, s.part, p);
    PushOk(s, g, p, t);
    LoadAdd(usage, m, t, |usage|);
    LoadZero(usage, m, |usage|);
  }

  // ---- One thread after another ----

  lemma {:induction false} LoadNone(usage: seq<int>, k: nat)
    requires k <= |usage|
    ensures Load(usage, {}, k) == 0
  {
    if k != 0 { LoadNone(usage, k - 1); }
  }

  /** The first i threads have been tried as starting threads of machine p. */
  ghost predicate Starting(s0: State, s: State, threads: seq<nat>, i: nat, g: Graph, usage: seq<int>, p: nat,
                           last: bool,
                           target: int, curSum: int)
  {
    forall u: nat :: StartingAt(u, s0, s, threads, i, g, usage, p, last, target, curSum)
  }

  /** Thread t did not fit when it was tried; if nothing has been placed on the machine, it was not ready. */
  ghost predicate Tried(s: State, g: Graph, usage: seq<int>, p: nat, last: bool, target: int, curSum: int, t: nat)
    requires t < g.Size() == |usage| && s.placed <= s.part.Keys
  {
    && NoRoom(s, g, usage, last, target, curSum, t)
    && (Members(s.placed, s.part, p) == {} ==> !s.AllPrev(g, t))
  }

  ghost predicate StartingAt(unused: nat, s0: State, s: State, threads: seq<nat>, i: nat, g: Graph, usage: seq<int>,
                             p: nat,
                             last: bool, target: int, curSum: int)
  {
    && Filling(s, g, usage, p, last, target, curSum) && Grown(s0, s, p) && Lists(threads, g.Size()) && i <= |threads|
    && (forall j | 0 <= j < i && threads[j] !in s.placed :: Tried(s, g, usage, p, last, target, curSum, threads[j]))
    && (forall j | i <= j < |threads| && !s.added[threads[j]] :: threads[j] !in s.placed)
  }

  lemma StartingBegins(s: State, threads: seq<nat>, g: Graph, usage: seq<int>, p: nat, last: bool, target: int)
    requires Filling(s, g, usage, p, last, target, 0) && Lists(threads, g.Size()) && s.queue == []
    ensures Starting(s, s, threads, 0, g, usage, p, last, target, 0)
  {
    EmptyQueue(s, g, p);
    forall u: nat ensures StartingAt(u, s, s, threads, 0, g, usage, p, last, target, 0) { }
  }

  /** What the code needs to look at thread i. */
  lemma StartingFacts(s0: State, s: State, threads: seq<nat>, i: nat, g: Graph, usage: seq<int>, p: nat, last: bool,
                      target: int, curSum: int)
    requires Starting(s0, s, threads, i, g, usage, p, last, target, curSum) && i < |threads|
    ensures threads[i] < g.Size() == |usage| == |s.added| && forall f | f in g.ins[threads[i]] :: f < |s.added|
  {
    assert StartingAt(0, s0, s, threads, i, g, usage, p, last, target, curSum);
  }

  lemma StartingSkips(s0: State, s: State, threads: seq<nat>, i: nat, g: Graph, usage: seq<int>, p: nat, last: bool,
                      target: int, curSum: int, n: nat)
    requires Starting(s0, s, threads, i, g, usage, p, last, target, curSum) && i < |threads| && n == i + 1
    requires threads[i] < |usage| && threads[i] < |s.added| && threads[i] < g.Size()
    requires s.added[threads[i]] || !s.AllPrev(g, threads[i])
             || !(curSum + usage[threads[i]] < target || last || curSum == 0)
    ensures Starting(s0, s, threads, n, g, usage, p, last, target, curSum)
  {
    assert StartingAt(0, s0, s, threads, i, g, usage, p, last, target, curSum);
    LoadNone(usage, |usage|);
    forall u: nat ensures StartingAt(u, s0, s, threads, n, g, usage, p, last, target, curSum) { }
  }

  lemma StartingPushes(s0: State, s: State, threads: seq<nat>, i: nat, g: Graph, usage: seq<int>, p: nat, last: bool,
                       target: int, curSum: int, n: nat, t: State, more: int)
    requires Starting(s0, s, threads, i, g, usage, p, last, target, curSum) && i < |threads| && n == i + 1
    requires threads[i] < |usage| && threads[i] < |s.added| && threads[i] < g.Size()
    requires !s.added[threads[i]] && s.AllPrev(g, threads[i])
             && (curSum + usage[threads[i]] < target || last || curSum == 0)
    requires t == s.Push(threads[i], p) && more == curSum + usage[threads[i]]
    ensures Starting(s0, t, threads, n, g, usage, p, last, target, more)
  {
    assert StartingAt(0, s0, s, threads, i, g, usage, p, last, target, curSum);
    FillingPush(s, g, usage, p, last, target, curSum, threads[i]);
    assert threads[i] in Members(t.placed, t.part, p);
    forall j | 0 <= j < n && threads[j] !in t.placed ensures Tried(t, g, usage, p, last, target, more, threads[j]) {
      assert Tried(s, g, usage, p, last, target, curSum, threads[j]);
    }
    forall u: nat ensures StartingAt(u, s0, t, threads, n, g, usage, p, last, target, more) { }
  }

  lemma StartingEnds(s0: State, s: State, threads: seq<nat>, g: Graph, usage: seq<int>, p: nat, last: bool, target: int,
                     curSum: int)
    requires Starting(s0, s, threads, |threads|, g, usage, p, last, target, curSum)
    ensures Filling(s, g, usage, p, last, target, curSum) && Grown(s0, s, p)
    ensures NothingFits(s, g, usage, last, target, curSum)
    ensures Members(s.placed, s.part, p) == {} ==> AllWaiting(s, g)
  {
    assert StartingAt(0, s0, s, threads, |threads|, g, usage, p, last, target, curSum);
    forall t: nat | t < g.Size() && t !in s.placed ensures Tried(s, g, usage, p, last, target, curSum, t) {
      assert t in threads;
    }
  }

  /** Of the successors out of a thread just marked the first y have been tried. */
  ghost predicate Spreading(s0: State, s: State, out: seq<nat>, y: nat, g: Graph, usage: seq<int>, p: nat, last: bool,
                            target: int, curSum: int)
  {
    forall u: nat :: SpreadingAt(u, s0, s, out, y, g, usage, p, last, target, curSum)
  }

  ghost predicate SpreadingAt(unused: nat, s0: State, s: State, out: seq<nat>, y: nat, g: Graph, usage: seq<int>,
                              p: nat,
                              last: bool, target: int, curSum: int)
  {
    && Filling(s, g, usage, p, last, target, curSum) && Grown(s0, s, p) && y <= |out|
    && (forall t | t in out :: t < g.Size()) && Distinct(out)
    && (forall t: nat | t < g.Size() && t !in s.placed && t !in out[y..] ::
          NoRoom(s, g, usage, last, target, curSum, t))
    && (forall k | y <= k < |out| :: out[k] !in s.placed)
  }

  lemma SpreadingBegins(s: State, id: nat, g: Graph, usage: seq<int>, p: nat, last: bool, target: int, sum: int)
    requires Filling(s, g, usage, p, last, target, sum) && id < g.Size() && g.Valid()
    requires forall t | t in g.outs[id] :: t !in s.placed
    requires forall t: nat | t < g.Size() && t !in s.placed && t !in g.outs[id] ::
               NoRoom(s, g, usage, last, target, sum, t)
    ensures Spreading(s, s, g.outs[id], 0, g, usage, p, last, target, sum)
  {
    var out := g.outs[id];
    assert out[0..] == out;
    forall u: nat ensures SpreadingAt(u, s, s, out, 0, g, usage, p, last, target, sum) { }
  }

  lemma SpreadingFacts(s0: State, s: State, out: seq<nat>, y: nat, g: Graph, usage: seq<int>, p: nat, last: bool,
                       target: int, curSum: int)
    requires Spreading(s0, s, out, y, g, usage, p, last, target, curSum) && y < |out|
    ensures out[y] < g.Size() == |usage| == |s.added| && forall f | f in g.ins[out[y]] :: f < |s.added|
  {
    assert SpreadingAt(0, s0, s, out, y, g, usage, p, last, target, curSum);
    assert out[y] in out;
  }

  lemma NotLater(out: seq<nat>, y: nat, t: nat)
    requires y < |out| && t != out[y] && t !in out[y + 1..]
    ensures t !in out[y..]
  {
    assert out[y..] == [out[y]] + out[y + 1..];
  }

  lemma SpreadingSkips(s0: State, s: State, out: seq<nat>, y: nat, g: Graph, usage: seq<int>, p: nat, last: bool,
                       target: int, curSum: int, n: nat)
    requires Spreading(s0, s, out, y, g, usage, p, last, target, curSum) && y < |out| && n == y + 1
    requires out[y] < g.Size() == |usage| && out[y] < |s.added|
    requires s.added[out[y]] || NoRoom(s, g, usage, last, target, curSum, out[y])
    ensures Spreading(s0, s, out, n, g, usage, p, last, target, curSum)
  {
    assert SpreadingAt(0, s0, s, out, y, g, usage, p, last, target, curSum);
    forall t: nat | t < g.Size() && t !in s.placed && t !in out[n..]
      ensures NoRoom(s, g, usage, last, target, curSum, t)
    {
      if t != out[y] { NotLater(out, y, t); }
    }
    forall u: nat ensures SpreadingAt(u, s0, s, out, n, g, usage, p, last, target, curSum) { }
  }

  lemma SpreadingPushes(s0: State, s: State, out: seq<nat>, y: nat, g: Graph, usage: seq<int>, p: nat, last: bool,
                        target: int, curSum: int, n: nat, t: State, more: int)
    requires Spreading(s0, s, out, y, g, usage, p, last, target, curSum) && y < |out| && n == y + 1
    requires out[y] < |usage| && out[y] < g.Size()
    requires s.AllPrev(g, out[y]) && (curSum + usage[out[y]] < target || last)
    requires t == s.Push(out[y], p) && more == curSum + usage[out[y]]
    ensures Spreading(s0, t, out, n, g, usage, p, last, target, more)
  {
    assert SpreadingAt(0, s0, s, out, y, g, usage, p, last, target, curSum);
    FillingPush(s, g, usage, p, last, target, curSum, out[y]);
    forall k: nat | k < g.Size() && k !in t.placed && k !in out[n..]
      ensures NoRoom(t, g, usage, last, target, more, k)
    {
      NotLater(out, y, k);
      assert NoRoom(s, g, usage, last, target, curSum, k);
    }
    forall u: nat ensures SpreadingAt(u, s0, t, out, n, g, usage, p, last, target, more) { }
  }

  lemma SpreadingEnds(s0: State, s: State, out: seq<nat>, g: Graph, usage: seq<int>, p: nat, last: bool, target: int,
                      curSum: int)
    requires Spreading(s0, s, out, |out|, g, usage, p, last, target, curSum)
    ensures Filling(s, g, usage, p, last, target, curSum) && Grown(s0, s, p)
    ensures NothingFits(s, g, usage, last, target, curSum)
  {
    assert SpreadingAt(0, s0, s, out, |out|, g, usage, p, last, target, curSum);
  }

  class Ccp {
    var newPartition: map<nat, nat>
    var machinesInPartition: nat

    constructor ()
      ensures newPartition == map[] && machinesInPartition == 0
    {
      newPartition := map[];
      machinesInPartition := 0;
    }

    static method AllPrevAdded(preds: seq<nat>, added: array<bool>) returns (all: bool)
      requires forall f | f in preds :: f < added.Length
      ensures all <==> forall f | f in preds :: f < added.Length && added[f]
    {
      all := true;
      for y := 0 to |preds|
        invariant all ==> forall k | 0 <= k < y :: preds[k] < added.Length && added[preds[k]]
        invariant !all ==> exists f | f in preds :: !added[f]
      {
        assert preds[y] in preds;
        if !added[preds[y]] {
          all := false;
        }
      }
    }

    /** Every thread whose predecessors are done starts machine p, as far as the target allows. */
    method StartMachine(threads: seq<nat>, g: Graph, usage: seq<int>, p: nat, last: bool, target: int,
                        added: array<bool>, ghost s: State)
      returns (q: seq<nat>, curSum: int, ghost s': State)
      requires Filling(s, g, usage, p, last, target, 0) && Lists(threads, g.Size())
      requires s.added == added[..] && s.part == newPartition && s.queue == [] && Members(s.placed, s.part, p) == {}
      modifies this`newPartition
      ensures s'.added == added[..] && s'.part == newPartition && s'.queue == q
      ensures Filling(s', g, usage, p, last, target, curSum) && Grown(s, s', p)
      ensures NothingFits(s', g, usage, last, target, curSum)
      ensures Members(s'.placed, s'.part, p) == {} ==> AllWaiting(s', g)
    {
      q, curSum, s' := [], 0, s;
      StartingBegins(s, threads, g, usage, p, last, target);
      for i := 0 to |threads|
        invariant s'.added == added[..] && s'.part == newPartition && s'.queue == q
        invariant Starting(s, s', threads, i, g, usage, p, last, target, curSum)
      {
        StartingFacts(s, s', threads, i, g, usage, p, last, target, curSum);
        var id := threads[i];
        var work := usage[id];
        var allPrev := AllPrevAdded(g.ins[id], added);
        if !added[id] && allPrev && (curSum + work < target || last || curSum == 0) {
          StartingPushes(s, s', threads, i, g, usage, p, last, target, curSum, i + 1, s'.Push(id, p), curSum + work);
          newPartition := newPartition[id := p];
          q := q + [id];
          curSum := curSum + work;
          s' := s'.Push(id, p);
        } else {
          StartingSkips(s, s', threads, i, g, usage, p, last, target, curSum, i + 1);
        }
      }
      StartingEnds(s, s', threads, g, usage, p, last, target, curSum);
    }

    /** Pushes the successors of a thread just marked that have become ready and still fit. */
    method PushReady(id: nat, g: Graph, usage: seq<int>, p: nat, last: bool, target: int, added: array<bool>,
                     queue: seq<nat>, sum: int, ghost s: State)
      returns (q: seq<nat>, curSum: int, ghost s': State)
      requires Filling(s, g, usage, p, last, target, sum) && id < g.Size()
      requires s.added == added[..] && s.part == newPartition && s.queue == queue
      requires forall t | t in g.outs[id] :: t !in s.placed
      requires forall t: nat | t < g.Size() && t !in s.placed && t !in g.outs[id] ::
                 NoRoom(s, g, usage, last, target, sum, t)
      modifies this`newPartition
      ensures s'.added == added[..] && s'.part == newPartition && s'.queue == q
      ensures Filling(s', g, usage, p, last, target, curSum) && Grown(s, s', p)
      ensures NothingFits(s', g, usage, last, target, curSum)
    {
      q, curSum, s' := queue, sum, s;
      var out := g.outs[id];
      SpreadingBegins(s, id, g, usage, p, last, target, sum);
      for y := 0 to |out|
        invariant s'.added == added[..] && s'.part == newPartition && s'.queue == q
        invariant Spreading(s, s', out, y, g, usage, p, last, target, curSum)
      {
        SpreadingFacts(s, s', out, y, g, usage, p, last, target, curSum);
        var to := out[y];
        var work := usage[to];
        var allPrev := AllPrevAdded(g.ins[to], added);
        if !added[to] && allPrev && (curSum + work < target || last) {
          SpreadingPushes(s, s', out, y, g, usage, p, last, target, curSum, y + 1, s'.Push(to, p), curSum + work);
          newPartition := newPartition[to := p];
          q := q + [to];
          curSum := curSum + work;
          s' := s'.Push(to, p);
        } else {
          SpreadingSkips(s, s', out, y, g, usage, p, last, target, curSum, y + 1);
        }
      }
      SpreadingEnds(s, s', out, g, usage, p, last, target, curSum);
    }

    /** Works through the queue. */
    method Drain(g: Graph, usage: seq<int>, p: nat, last: bool, target: int, added: array<bool>,
                 queue: seq<nat>, sum: int, ghost s: State)
      returns (curSum: int, ghost s': State)
      requires Filling(s, g, usage, p, last, target, sum)
      requires s.added == added[..] && s.part == newPartition && s.queue == queue
      requires NothingFits(s, g, usage, last, target, sum)
      modifies this`newPartition, added
      ensures s'.added == added[..] && s'.part == newPartition && s'.queue == []
      ensures Filling(s', g, usage, p, last, target, curSum) && Grown(s, s', p)
      ensures NothingFits(s', g, usage, last, target, curSum)
    {
      var q := queue;
      curSum, s' := sum, s;
      while |q| > 0
        invariant s'.added == added[..] && s'.part == newPartition && s'.queue == q
        invariant Filling(s', g, usage, p, last, target, curSum) && Grown(s, s', p)
        invariant NothingFits(s', g, usage, last, target, curSum)
        decreases Unmarked(s'.added)
      {
        var id := q[0];
        PopReady(s', g, usage, p, last, target, curSum);
        UnmarkedDrop(s'.added, id);
        q := q[1..];
        added[id] := true;
        s' := s'.Pop();
        q, curSum, s' := PushReady(id, g, usage, p, last, target, added, q, curSum, s');
      }
    }

    /** Fills one machine. */
    method FillMachine(threads: seq<nat>, g: Graph, usage: seq<int>, targets: seq<real>, total: int, numP: nat, p: nat,
                       added: array<bool>, ghost s: State, ghost rank: seq<nat>)
      returns (ghost s': State)
      requires Filled(s, g, usage, targets, total, numP, p) && p < numP && Lists(threads, g.Size())
      requires g.Valid() && g.Ranks(rank)
      requires s.added == added[..] && |s.added| == g.Size() && s.part == newPartition
      requires p == 0 ==> forall t | 0 <= t < |s.added| :: !s.added[t]
      modifies this`newPartition, added
      ensures s'.added == added[..] && |s'.added| == g.Size() && s'.part == newPartition
      ensures Filled(s', g, usage, targets, total, numP, p + 1)
    {
      var target := Target(total, targets[p]);
      StartFilling(s, g, usage, targets, total, numP, p);
      var q, sum;
      ghost var started;
      q, sum, started := StartMachine(threads, g, usage, p, p == numP - 1, target, added, s);
      var curSum;
      curSum, s' := Drain(g, usage, p, p == numP - 1, target, added, q, sum, started);
      EmptyMeansDone(s, started, s', g, rank, p);
      FilledStep(s, s', g, usage, targets, total, numP, p, curSum);
    }

    /** The whole cut: num_p machines, given the share of the total work each should get. */
    method FindPartition(threads: seq<nat>, g: Graph, usage: seq<int>, numP: nat, targets: seq<real>)
      requires g.Valid() && g.Acyclic() && Lists(threads, g.Size())
      requires |usage| == g.Size() && (forall t | 0 <= t < |usage| :: usage[t] >= 0) && |targets| == numP
      modifies this
      ensures machinesInPartition == numP
      ensures numP > 0 ==> Partitioned(newPartition, g, usage, targets, numP)
    {
      var added := new bool[g.Size()](_ => false);
      var total := 0;
      for a := 0 to |usage|
        invariant total == Load(usage, Threads(|usage|), a)
        invariant added[..] == seq(g.Size(), _ => false)
      {
        added[a] := false;
        total := total + usage[a];
      }
      ghost var rank :| g.Ranks(rank);
      ghost var s := State(added[..], {}, newPartition, []);
      for p := 0 to numP
        invariant s.added == added[..] && |s.added| == g.Size() && s.part == newPartition
        invariant p == 0 ==> forall t | 0 <= t < |s.added| :: !s.added[t]
        invariant Filled(s, g, usage, targets, total, numP, p)
      {
        s := FillMachine(threads, g, usage, targets, total, numP, p, added, s, rank);
      }
      machinesInPartition := numP;
      if numP > 0 {
        FilledIsPartition(s, g, usage, targets, numP, rank);
      }
    }
  }

  /** What a finished cut satisfies. */
  ghost predicate Partitioned(part: map<nat, nat>, g: Graph, usage: seq<int>, targets: seq<real>, numP: nat)
    requires |targets| == numP && |usage| == g.Size()
  {
    var all := Threads(g.Size());
    var total := Load(usage, all, |usage|);
    // every thread is on exactly one of the machines
    && all <= part.Keys && (forall t: nat | t < g.Size() :: part[t] < numP)
    // data never flows to an earlier machine
    && (forall t: nat, f: nat | t < g.Size() && f in g.ins[t] :: f in part && part[f] <= part[t])
    // the machines in use come first
    && (forall j: nat | j < numP :: Members(all, part, j) != {} || forall t: nat | t < g.Size() :: part[t] < j)
    // all but the last machine stay below their target or have at most one thread with work
    && (forall j: nat | j < numP - 1 :: LoadOk(usage, Members(all, part, j), Target(total, targets[j])))
    // and are closed only when nothing more fits
    && (forall j: nat | j < numP - 1 :: Full(part, g, usage, j, all, Target(total, targets[j])))
  }

  /** Of the threads not on machine j nor before, each waits for a sender that is not either or reaches its target. */
  ghost predicate Full(part: map<nat, nat>, g: Graph, usage: seq<int>, j: nat, placed: set<nat>, target: int)
    requires placed <= part.Keys && |usage| == g.Size()
  {
    forall t: nat | t < g.Size() && !UpTo(part, placed, j, t)
                    && (forall f | f in g.ins[t] :: UpTo(part, placed, j, f)) ::
      Load(usage, Members(placed, part, j), |usage|) + usage[t] >= target
  }

  /** Thread t is on machine j or on one before. */
  ghost predicate UpTo(part: map<nat, nat>, placed: set<nat>, j: nat, t: nat)
    requires placed <= part.Keys
  {
    t in placed && part[t] <= j
  }

  /** When machine k has been filled, it is full. */
  lemma FilledFull(s: State, g: Graph, usage: seq<int>, k: nat, last: bool, target: int, curSum: int)
    requires Filling(s, g, usage, k, last, target, curSum) && s.queue == []
    requires NothingFits(s, g, usage, last, target, curSum)
    ensures Full(s.part, g, usage, k, s.placed, target)
  {
    EmptyQueue(s, g, k);
    assert s.OkAt(0, g, k);
    forall t: nat | t < g.Size() && !UpTo(s.part, s.placed, k, t)
                    && (forall f | f in g.ins[t] :: UpTo(s.part, s.placed, k, f))
      ensures Load(usage, Members(s.placed, s.part, k), |usage|) + usage[t] >= target
    {
      assert s.AllPrev(g, t);
      assert NoRoom(s, g, usage, last, target, curSum, t);
    }
  }

  /** Filling a later machine leaves it so. */
  lemma FullStays(a: State, b: State, g: Graph, usage: seq<int>, p: nat, j: nat, target: int)
    requires Grown(a, b, p) && j < p && |usage| == g.Size() && Full(a.part, g, usage, j, a.placed, target)
    ensures Full(b.part, g, usage, j, b.placed, target)
  {
    GrownMembers(a, b, p, j);
    forall t: nat | t < g.Size() && !UpTo(b.part, b.placed, j, t)
                    && (forall f | f in g.ins[t] :: UpTo(b.part, b.placed, j, f))
      ensures Load(usage, Members(b.placed, b.part, j), |usage|) + usage[t] >= target
    {
      assert !UpTo(a.part, a.placed, j, t);
      forall f | f in g.ins[t] ensures UpTo(a.part, a.placed, j, f) { assert UpTo(b.part, b.placed, j, f); }
    }
  }

  /** Data never flows to an earlier machine. */
  lemma SendersBefore(s: State, g: Graph, k: nat)
    requires s.Ok(g, k) && g.Valid() && s.placed == Threads(g.Size())
    ensures forall t: nat, f: nat | t < g.Size() && f in g.ins[t] ::
              f in s.part && t in s.part && s.part[f] <= s.part[t]
  {
    assert s.OkAt(0, g, k);
    forall t: nat, f: nat | t < g.Size() && f in g.ins[t]
      ensures f in s.part && t in s.part && s.part[f] <= s.part[t]
    {
      assert t in s.placed && s.PredsDone(g, t);
    }
  }

  /** When the last machine has been filled every thread is placed. */
  lemma AllPlaced(s: State, g: Graph, k: nat, rank: seq<nat>)
    requires g.Valid() && g.Ranks(rank) && s.Ok(g, k) && s.queue == [] && AllWaiting(s, g) && s.placed <= s.part.Keys
    ensures s.placed == Threads(g.Size())
  {
    assert s.OkAt(0, g, k);
    forall t: nat | t < g.Size() ensures t in s.placed {
      if t !in s.placed { ReadyExists(s, g, rank, t); }
    }
  }

  /** The machines in use come first. */
  lemma UsedFirst(s: State, g: Graph, numP: nat, all: set<nat>)
    requires s.placed == all == Threads(g.Size()) && s.placed <= s.part.Keys
    requires forall j: nat | j < numP :: Members(s.placed, s.part, j) != {} || Everyone(s, g, j)
    ensures forall j: nat | j < numP :: Members(all, s.part, j) != {} || forall t: nat | t < g.Size() :: s.part[t] < j
  {
    forall j: nat | j < numP && Members(all, s.part, j) == {} ensures forall t: nat | t < g.Size() :: s.part[t] < j {
      assert Everyone(s, g, j);
    }
  }

  lemma FilledIsPartition(s: State, g: Graph, usage: seq<int>, targets: seq<real>, numP: nat, rank: seq<nat>)
    requires g.Valid() && g.Ranks(rank) && numP > 0 && |targets| == numP && |usage| == g.Size()
    requires Filled(s, g, usage, targets, Load(usage, Threads(|usage|), |usage|), numP, numP)
    ensures Partitioned(s.part, g, usage, targets, numP)
  {
    AllPlaced(s, g, numP - 1, rank);
    SendersBefore(s, g, numP - 1);
    UsedFirst(s, g, numP, Threads(g.Size()));
    assert s.OkAt(0, g, numP - 1);
  }

  /** Machine p starts out empty. */
  lemma StartFilling(s: State, g: Graph, usage: seq<int>, targets: seq<real>, total: int, numP: nat, p: nat)
    requires Filled(s, g, usage, targets, total, numP, p) && p < numP && g.Valid() && |s.added| == g.Size()
    requires p == 0 ==> forall t | 0 <= t < |s.added| :: !s.added[t]
    ensures Members(s.placed, s.part, p) == {}
    ensures Filling(s, g, usage, p, p == numP - 1, Target(total, targets[p]), 0)
  {
    assert p > 0 ==> s.OkAt(0, g, p - 1);
    assert Members(s.placed, s.part, p) == {};
    LoadNone(usage, |usage|);
    forall u: nat ensures s.OkAt(u, g, p) { }
  }

  /** A machine stays empty only if every thread had been placed before. */
  lemma EmptyMeansDone(a: State, started: State, b: State, g: Graph, rank: seq<nat>, p: nat)
    requires g.Valid() && g.Ranks(rank) && a.Ok(g, p) && a.queue == [] && Members(a.placed, a.part, p) == {}
    requires Grown(a, started, p) && Grown(started, b, p) && started.added == a.added
    requires Members(started.placed, started.part, p) == {} ==> AllWaiting(started, g)
    ensures Grown(a, b, p)
    ensures Members(b.placed, b.part, p) == {} ==> Everyone(a, g, p)
  {
    assert a.OkAt(0, g, p);
    if Members(b.placed, b.part, p) == {} {
      assert Members(started.placed, started.part, p) <= Members(b.placed, b.part, p);
      forall t | t in started.placed ensures t in a.placed {
        assert t !in Members(started.placed, started.part, p);
      }
      forall t: nat | t < g.Size() ensures t in a.placed && a.part[t] < p {
        if t !in a.placed { ReadyExists(started, g, rank, t); }
        assert t !in Members(a.placed, a.part, p);
      }
    }
  }

  /** What is known once machines 0 .. k - 1 have been filled. */
  ghost predicate Filled(s: State, g: Graph, usage: seq<int>, targets: seq<real>, total: int, numP: nat, k: nat) {
    && |targets| == numP && k <= numP && |usage| == g.Size() && s.queue == []
    && s.placed <= s.part.Keys
    && (k == 0 ==> s.placed == {})
    && (k > 0 ==> s.Ok(g, k - 1))
    && (forall t | 0 <= t < |usage| :: usage[t] >= 0)
    && (forall j: nat | j < k && j != numP - 1 ::
          && LoadOk(usage, Members(s.placed, s.part, j), Target(total, targets[j]))
          && Full(s.part, g, usage, j, s.placed, Target(total, targets[j])))
    && (forall j: nat | j < k :: Members(s.placed, s.part, j) != {} || Everyone(s, g, j))
    && (k == numP && numP > 0 ==> AllWaiting(s, g))
  }

  /** Every thread is on a machine before j. */
  ghost predicate Everyone(s: State, g: Graph, j: nat)
    requires s.placed <= s.part.Keys
  {
    forall t: nat | t < g.Size() :: t in s.placed && s.part[t] < j
  }

  /** In an acyclic graph something is ready as long as anything is left. */
  lemma {:induction false} ReadyExists(s: State, g: Graph, rank: seq<nat>, t: nat)
    requires g.Valid() && g.Ranks(rank) && |s.added| == g.Size()
    requires forall u | 0 <= u < |s.added| :: s.added[u] <==> u in s.placed
    requires t < g.Size() && t !in s.placed
    ensures !AllWaiting(s, g)
    decreases rank[t]
  {
    if !s.AllPrev(g, t) {
      var f :| f in g.ins[t] && !(f < |s.added| && s.added[f]);
      ReadyExists(s, g, rank, f);
    }
  }

  /** Filling machine k extends what is known by one machine. */
  lemma FilledStep(a: State, b: State, g: Graph, usage: seq<int>, targets: seq<real>, total: int, numP: nat, k: nat,
                   curSum: int)
    requires Filled(a, g, usage, targets, total, numP, k) && k < numP && Grown(a, b, k)
    requires b.queue == [] && Filling(b, g, usage, k, k == numP - 1, Target(total, targets[k]), curSum)
    requires NothingFits(b, g, usage, k == numP - 1, Target(total, targets[k]), curSum)
    requires Members(b.placed, b.part, k) == {} ==> Everyone(a, g, k)
    ensures Filled(b, g, usage, targets, total, numP, k + 1)
  {
    assert b.OkAt(0, g, k);
    forall j: nat | j < k ensures Members(b.placed, b.part, j) == Members(a.placed, a.part, j) {
      GrownMembers(a, b, k, j);
    }
    FilledFull(b, g, usage, k, k == numP - 1, Target(total, targets[k]), curSum);
    forall j: nat | j < k && j != numP - 1 ensures Full(b.part, g, usage, j, b.placed, Target(total, targets[j])) {
      FullStays(a, b, g, usage, k, j, Target(total, targets[j]));
    }
    if k == numP - 1 {
      forall t: nat | t < g.Size() && t !in b.placed ensures !b.AllPrev(g, t) {
        assert NoRoom(b, g, usage, true, Target(total, targets[k]), curSum, t);
      }
    }
    forall j: nat | j <= k ensures Members(b.placed, b.part, j) != {} || Everyone(b, g, j) {
      if j < k && Members(a.placed, a.part, j) == {} { assert Everyone(a, g, j); }
    }
  }

  /** Marking the front of the queue makes only its successors ready, none of which is placed yet. */
  lemma PopReady(s: State, g: Graph, usage: seq<int>, p: nat, last: bool, target: int, curSum: int)
    requires s.Ok(g, p) && |s.queue| > 0 && |usage| == g.Size() && NothingFits(s, g, usage, last, target, curSum)
    ensures var id := s.queue[0];
            && id < g.Size() && id < |s.added| && !s.added[id] && s.Pop().Ok(g, p)
            && (forall t | t in g.outs[id] :: t !in s.placed)
            && (forall t: nat | t < g.Size() && t !in s.placed && t !in g.outs[id] ::
                  NoRoom(s.Pop(), g, usage, last, target, curSum, t))
  {
    var id := s.queue[0];
    assert s.OkAt(0, g, p);
    assert id in s.queue;
    PopOk(s, g, p);
    forall t | t in g.outs[id] ensures t !in s.placed {
      assert id in g.ins[t];
      assert t in s.placed ==> s.PredsDone(g, t);
    }
    forall t: nat | t < g.Size() && t !in s.placed && t !in g.outs[id]
      ensures NoRoom(s.Pop(), g, usage, last, target, curSum, t)
    {
      assert NoRoom(s, g, usage, last, target, curSum, t) && id !in g.ins[t];
    }
  }

  /** How many threads are not marked yet. */
  ghost function Unmarked(added: seq<bool>): nat {
    if |added| == 0 then 0 else (if added[0] then 0 else 1) + Unmarked(added[1..])
  }

  lemma {:induction false} UnmarkedDrop(added: seq<bool>, t: nat)
    requires t < |added| && !added[t]
    ensures Unmarked(added[t := true]) == Unmarked(added) - 1
  {
    if t == 0 {
      assert added[t := true][1..] == added[1..];
    } else {
      assert added[t := true][1..] == added[1..][t - 1 := true];
      UnmarkedDrop(added[1..], t - 1);
    }
  }
}
