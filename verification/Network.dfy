/**
 * Rollback in an acyclic network of nodes, each with any number of inputs and outputs. Every wire carries
 * versions of frames; each node reads one frame from each of its inputs at a time.
 */
module Networks {
  import opened Rollback
  import opened Seqs

  // ---- Last versions ----

  function Ids<T>(frames: seq<Frame<T>>): (r: seq<int>)
    ensures |r| == |frames| && forall j | 0 <= j < |r| :: r[j] == frames[j].id
  {
    seq(|frames|, j requires 0 <= j < |frames| => frames[j].id)
  }

  /** Where the last versions are, from position j on. */
  function Lasts(ids: seq<int>, j: nat): (r: seq<nat>)
    requires j <= |ids|
    ensures forall i | 0 <= i < |r| :: j <= r[i] < |ids|
    decreases |ids| - j
  {
    if j == |ids| then []
    else if j + 1 < |ids| && ids[j + 1] == ids[j] then Lasts(ids, j + 1)
    else [j] + Lasts(ids, j + 1)
  }

  function Pick<X>(x: seq<X>, at: seq<nat>): (r: seq<X>)
    requires forall i | 0 <= i < |at| :: at[i] < |x|
    ensures |r| == |at| && forall i | 0 <= i < |r| :: r[i] == x[at[i]]
  {
    seq(|at|, i requires 0 <= i < |at| => x[at[i]])
  }

  /** Only the last version of each frame. */
  function LastOnly<T>(frames: seq<Frame<T>>): seq<Frame<T>> {
    Latest(Grouped(frames))
  }

  lemma {:induction false} LastOnlyIsPick<T>(frames: seq<Frame<T>>, j: nat)
    requires j <= |frames|
    ensures LastOnly(frames[j..]) == Pick(frames, Lasts(Ids(frames), j))
    decreases |frames| - j
  {
    if j < |frames| {
      var rest := Grouped(frames[j + 1..]);
      assert frames[j..][1..] == frames[j + 1..];
      LastOnlyIsPick(frames, j + 1);
      GroupedFirst(frames[j + 1..]);
    }
  }

  lemma GroupedFirst<T>(frames: seq<Frame<T>>)
    ensures |Grouped(frames)| > 0 <==> |frames| > 0
    ensures |frames| > 0 ==> Grouped(frames)[0].id == frames[0].id
  {
  }

  /** Grouping takes groups with rising ids apart as they were. */
  lemma {:induction false} FlatGrouped<T>(groups: seq<Group<T>>, floor: int)
    requires Rising(groups, floor)
    ensures Grouped(Flat(groups)) == groups
    decreases |groups|
  {
    if |groups| > 0 {
      FlatGrouped(groups[1..], groups[0].id);
      GroupedVersions(groups[0].id, groups[0].Versions(), Flat(groups[1..]));
      assert groups == [groups[0]] + groups[1..];
    }
  }

  lemma {:induction false} GroupedVersions<T>(id: int, versions: seq<seq<T>>, rest: seq<Frame<T>>)
    requires |versions| > 0 && (|rest| > 0 ==> rest[0].id != id)
    ensures Grouped(Frames(id, versions) + rest) ==
            [Group(id, versions[..|versions| - 1], versions[|versions| - 1])] + Grouped(rest)
    decreases |versions|
  {
    var frames := Frames(id, versions) + rest;
    if |versions| == 1 {
      assert frames[1..] == rest;
      GroupedFirst(rest);
    } else {
      var tail := versions[1..];
      assert frames[1..] == Frames(id, tail) + rest;
      GroupedVersions(id, tail, rest);
      assert versions[..|versions| - 1] == [versions[0]] + tail[..|tail| - 1];
    }
  }

  // ---- A node that sends something for every frame ----

  /** Each frame makes the node send one. */
  ghost predicate Speaks<S, I, O>(f: Turn<S, I, O>, node: Node<S>, frames: seq<Frame<I>>) {
    |Run(f, node, frames).1| == |frames|
  }

  lemma {:induction false} SendsAtMost<S, I, O>(f: Turn<S, I, O>, node: Node<S>, frames: seq<Frame<I>>)
    ensures |Run(f, node, frames).1| <= |frames|
    decreases |frames|
  {
    if |frames| > 0 { SendsAtMost(f, Step(f, node, frames[0]).0, frames[1..]); }
  }

  lemma SpeaksParts<S, I, O>(f: Turn<S, I, O>, node: Node<S>, a: seq<Frame<I>>, b: seq<Frame<I>>)
    requires Speaks(f, node, a + b)
    ensures Speaks(f, node, a) && Speaks(f, Run(f, node, a).0, b)
  {
    RunConcat(f, node, a, b);
    SendsAtMost(f, node, a);
    SendsAtMost(f, Run(f, node, a).0, b);
  }

  lemma {:induction false} AllNonEmpty<O>(outs: seq<seq<O>>)
    ensures |NonEmpty(outs)| <= |outs|
    ensures |NonEmpty(outs)| == |outs| ==> NonEmpty(outs) == outs && forall i | 0 <= i < |outs| :: outs[i] != []
    decreases |outs|
  {
    if |outs| > 0 {
      AllNonEmpty(outs[1..]);
      assert outs == [outs[0]] + outs[1..];
    }
  }

  /** It leaves no stale frame in force, and sends a group for each group, with as many versions. */
  lemma GroupSpeaks<S, I, O>(f: Turn<S, I, O>, node: Node<S>, g: Group<I>)
    requires g.id > node.currFrame >= -1 && Speaks(f, node, Frames(g.id, g.Versions()))
    ensures !Stale(Outputs(f, node.now, g.Versions()))
    ensures SentGroup(f, node, g) == [AsGroup(node.outFrame, Outputs(f, node.now, g.Versions()))]
  {
    var outs := Outputs(f, node.now, g.Versions());
    RunVersions(f, node, g);
    AllNonEmpty(outs);
    FlatSent(node.outFrame, NonEmpty(outs));
  }

  lemma {:induction false} SpeaksNeverStale<S, I, O>(f: Turn<S, I, O>, node: Node<S>, groups: seq<Group<I>>)
    requires node.currFrame >= -1 && Rising(groups, node.currFrame) && Speaks(f, node, Flat(groups))
    ensures NeverStale(f, node, groups)
    decreases |groups|
  {
    if |groups| > 0 {
      var g := groups[0];
      SpeaksParts(f, node, Frames(g.id, g.Versions()), Flat(groups[1..]));
      RunVersions(f, node, g);
      GroupSpeaks(f, node, g);
      SpeaksNeverStale(f, After(f, node, g), groups[1..]);
    }
  }

  /** Ids count up from 0, each frame once or in several versions. */
  ghost predicate Regular(ids: seq<int>) {
    && (|ids| > 0 ==> ids[0] == 0)
    && forall j, k | 0 <= j && k == j + 1 < |ids| :: ids[k] == ids[j] || ids[k] == ids[j] + 1
  }

  lemma {:induction false} RegularBounds(ids: seq<int>, j: nat, k: nat)
    requires Regular(ids) && j <= k < |ids|
    ensures 0 <= ids[j] <= ids[k]
    decreases k
  {
    if j < k { RegularBounds(ids, j, k - 1); } else if k > 0 { RegularBounds(ids, k - 1, k - 1); }
  }

  lemma RegularDisciplined<T>(frames: seq<Frame<T>>)
    requires Regular(Ids(frames))
    ensures Disciplined(frames, -1)
  {
    forall j, k | 0 <= j <= k < |frames| ensures frames[j].id <= frames[k].id && frames[j].id > -1 {
      RegularBounds(Ids(frames), j, k);
    }
  }

  /** A node at its start. */
  ghost predicate AtStart<S>(node: Node<S>) {
    node.currFrame == -1 && node.outFrame == 0
  }

  /** Such a node gives each frame it sends the id of the one it has read. */
  lemma {:induction false} SpeaksIds<S, I, O>(f: Turn<S, I, O>, node: Node<S>, frames: seq<Frame<I>>, n: nat)
    requires AtStart(node) && Regular(Ids(frames)) && n <= |frames| && Speaks(f, node, frames[..n])
    ensures var (after, sent) := Run(f, node, frames[..n]);
      && after.currFrame == (if n == 0 then -1 else frames[n - 1].id) && after.outFrame == after.currFrame + 1
      && |sent| == n && forall j | 0 <= j < n :: sent[j].id == frames[j].id
    decreases n
  {
    if n > 0 {
      var m := n - 1;
      assert frames[..n] == frames[..m] + [frames[m]];
      SpeaksParts(f, node, frames[..m], [frames[m]]);
      SpeaksIds(f, node, frames, m);
      RunSnoc(f, node, frames, m);
      RegularBounds(Ids(frames), m, m);
      if m > 0 { assert Ids(frames)[m] == frames[m].id && Ids(frames)[m - 1] == frames[m - 1].id; }
    }
  }

  lemma SpeakingNeverStale<S, I, O>(f: Turn<S, I, O>, node: Node<S>, frames: seq<Frame<I>>)
    requires AtStart(node) && Regular(Ids(frames)) && Speaks(f, node, frames)
    ensures NeverStale(f, node, Grouped(frames)) && Ids(Run(f, node, frames).1) == Ids(frames)
  {
    RegularDisciplined(frames);
    GroupedFlat(frames);
    GroupedRising(frames, -1);
    SpeaksNeverStale(f, node, Grouped(frames));
    assert frames[..|frames|] == frames;
    SpeaksIds(f, node, frames, |frames|);
  }

  lemma LastSentGroups<S, I, O>(f: Turn<S, I, O>, node: Node<S>, groups: seq<Group<I>>)
    requires node.currFrame >= -1 && Rising(groups, node.currFrame)
    ensures Run(f, node, Flat(groups)).0 == Run(f, node, Latest(groups)).0
    ensures LastOnly(Run(f, node, Flat(groups)).1) == Latest(SentGroups(f, node, groups))
  {
    RunGroups(f, node, groups);
    SentRising(f, node, groups);
    FlatGrouped(SentGroups(f, node, groups), node.outFrame - 1);
  }

  /**
   * The last versions of what a node sends are what it sends for the last versions only, exactly when no
   * frame's last version sends nothing after an earlier version sent something.
   */
  lemma LastSent<S, I, O>(f: Turn<S, I, O>, node: Node<S>, frames: seq<Frame<I>>)
    requires node.currFrame >= -1 && Disciplined(frames, node.currFrame)
    ensures Run(f, node, LastOnly(frames)).0 == Run(f, node, frames).0
    ensures Run(f, node, LastOnly(frames)).1 == LastOnly(Run(f, node, frames).1) <==>
            NeverStale(f, node, Grouped(frames))
    ensures Disciplined(Run(f, node, frames).1, node.outFrame - 1)
  {
    GroupedFlat(frames);
    GroupedRising(frames, node.currFrame);
    LastSentGroups(f, node, Grouped(frames));
    SentLatest(f, node, Grouped(frames));
    RollbackSound(f, node, frames);
  }

  // ---- The network ----

  /** A node, the wires it reads, and how many it writes. */
  datatype Unit<!S, !T> = Unit(work: Turn<S, seq<T>, seq<T>>, ins: seq<nat>, outs: nat, node: Node<S>) {

    /** It reads some of n wires. */
    ghost predicate Reads(n: nat) {
      |ins| > 0 && forall i | 0 <= i < |ins| :: ins[i] < n
    }
  }

  /** Each unit reads wires that are there before it: the n from outside, and the outputs of earlier units. */
  ghost predicate Acyclic<S, T>(units: seq<Unit<S, T>>, n: nat)
    decreases |units|
  {
    |units| > 0 ==> units[0].Reads(n) && Acyclic(units[1..], n + units[0].outs)
  }

  /** The node as output k sees it. */
  function Out<S, T>(work: Turn<S, seq<T>, seq<T>>, k: nat): Turn<S, seq<T>, T> {
    (s: S, items: seq<seq<T>>) => (work(s, items).0, Port(work(s, items).1, k))
  }

  /** floors has the last id each wire has carried before; the units have read no later ones. */
  ghost predicate UpTo<S, T>(units: seq<Unit<S, T>>, floors: seq<int>)
    requires Acyclic(units, |floors|)
    decreases |units|
  {
    |units| > 0 ==>
      -1 <= units[0].node.currFrame <= floors[units[0].ins[0]] && UpTo(units[1..], floors + Floors(units[0]))
  }

  function Floors<S, T>(u: Unit<S, T>): (r: seq<int>)
    ensures |r| == u.outs && forall k | 0 <= k < u.outs :: r[k] == u.node.outFrame - 1
  {
    seq(u.outs, _ => u.node.outFrame - 1)
  }

  /** What the node reads: with each frame of the first input, those of the others at the same place. */
  function Rows<T>(wires: seq<seq<Frame<T>>>, ins: seq<nat>): (r: seq<Frame<seq<T>>>)
    requires |ins| > 0 && forall i | 0 <= i < |ins| :: ins[i] < |wires|
    ensures |r| == |wires[ins[0]]|
    ensures forall j | 0 <= j < |r| :: r[j] == Row(wires, ins, j)
  {
    seq(|wires[ins[0]]|, j requires 0 <= j < |wires[ins[0]]| => Row(wires, ins, j))
  }

  function Row<T>(wires: seq<seq<Frame<T>>>, ins: seq<nat>, j: nat): Frame<seq<T>>
    requires |ins| > 0 && (forall i | 0 <= i < |ins| :: ins[i] < |wires|) && j < |wires[ins[0]]|
  {
    Frame(wires[ins[0]][j].id,
          seq(|ins|, i requires 0 <= i < |ins| => if j < |wires[ins[i]]| then wires[ins[i]][j].items else []))
  }

  /** The asserts of run_sync: frame by frame, all inputs have the same ids. */
  ghost predicate IdsAgree<T>(wires: seq<seq<Frame<T>>>, ins: seq<nat>)
    requires |ins| > 0 && forall i | 0 <= i < |ins| :: ins[i] < |wires|
  {
    forall i | 0 <= i < |ins| :: Ids(wires[ins[i]]) == Ids(wires[ins[0]])
  }

  function Sends<S, T>(u: Unit<S, T>, rows: seq<Frame<seq<T>>>): (r: seq<seq<Frame<T>>>)
    ensures |r| == u.outs && forall k | 0 <= k < u.outs :: r[k] == Run(Out(u.work, k), u.node, rows).1
  {
    seq(u.outs, k requires 0 <= k => Run(Out(u.work, k), u.node, rows).1)
  }

  /** How the nodes end, and what is on all wires. */
  function Flow<S, T>(units: seq<Unit<S, T>>, wires: seq<seq<Frame<T>>>): (seq<Node<S>>, seq<seq<Frame<T>>>)
    requires Acyclic(units, |wires|)
    decreases |units|
  {
    if |units| == 0 then ([], wires)
    else
      var rows := Rows(wires, units[0].ins);
      var (nodes, all) := Flow(units[1..], wires + Sends(units[0], rows));
      ([Run(Out(units[0].work, 0), units[0].node, rows).0] + nodes, all)
  }

  ghost predicate AllAgree<S, T>(units: seq<Unit<S, T>>, wires: seq<seq<Frame<T>>>)
    requires Acyclic(units, |wires|)
    decreases |units|
  {
    |units| > 0 ==>
      && IdsAgree(wires, units[0].ins)
      && AllAgree(units[1..], wires + Sends(units[0], Rows(wires, units[0].ins)))
  }

  ghost predicate UnitSpeaks<S, T>(u: Unit<S, T>, rows: seq<Frame<seq<T>>>) {
    forall k: nat | k < u.outs :: Speaks(Out(u.work, k), u.node, rows)
  }

  /** For every frame it reads, each node sends one on each of its outputs. */
  ghost predicate AllSpeak<S, T>(units: seq<Unit<S, T>>, wires: seq<seq<Frame<T>>>)
    requires Acyclic(units, |wires|)
    decreases |units|
  {
    |units| > 0 ==>
      && UnitSpeaks(units[0], Rows(wires, units[0].ins))
      && AllSpeak(units[1..], wires + Sends(units[0], Rows(wires, units[0].ins)))
  }

  ghost predicate SameIds<T>(wires: seq<seq<Frame<T>>>, ids: seq<int>) {
    forall w | 0 <= w < |wires| :: Ids(wires[w]) == ids
  }

  function LastWires<T>(wires: seq<seq<Frame<T>>>): (r: seq<seq<Frame<T>>>)
    ensures |r| == |wires| && forall w | 0 <= w < |r| :: r[w] == LastOnly(wires[w])
  {
    seq(|wires|, w requires 0 <= w < |wires| => LastOnly(wires[w]))
  }

  lemma LastOnlyPick<T>(frames: seq<Frame<T>>)
    ensures LastOnly(frames) == Pick(frames, Lasts(Ids(frames), 0))
  {
    assert frames[0..] == frames;
    LastOnlyIsPick(frames, 0);
  }

  /** Reading only last versions is the same as reading all and keeping the last versions. */
  lemma RowsLast<T>(wires: seq<seq<Frame<T>>>, ins: seq<nat>)
    requires |ins| > 0 && (forall i | 0 <= i < |ins| :: ins[i] < |wires|) && IdsAgree(wires, ins)
    ensures Ids(Rows(wires, ins)) == Ids(wires[ins[0]]) && IdsAgree(LastWires(wires), ins)
    ensures Rows(LastWires(wires), ins) == LastOnly(Rows(wires, ins))
  {
    var rows, lasts, ids := Rows(wires, ins), LastWires(wires), Ids(wires[ins[0]]);
    var at := Lasts(ids, 0);
    assert Ids(rows) == ids;
    LastOnlyPick(rows);
    forall i | 0 <= i < |ins| ensures lasts[ins[i]] == Pick(wires[ins[i]], at) && |wires[ins[i]]| == |ids| {
      assert Ids(wires[ins[i]]) == ids;
      LastOnlyPick(wires[ins[i]]);
    }
    forall i | 0 <= i < |ins| ensures Ids(lasts[ins[i]]) == Ids(lasts[ins[0]]) {
      assert Ids(wires[ins[i]]) == ids;
      PickIds(wires[ins[i]], wires[ins[0]], at);
    }
    forall j | 0 <= j < |at| ensures Row(lasts, ins, j) == rows[at[j]] { }
  }

  lemma PickIds<T>(a: seq<Frame<T>>, b: seq<Frame<T>>, at: seq<nat>)
    requires Ids(a) == Ids(b) && forall i | 0 <= i < |at| :: at[i] < |a|
    ensures |a| == |b| && Ids(Pick(a, at)) == Ids(Pick(b, at))
  {
    assert |Ids(a)| == |Ids(b)|;
    forall i | 0 <= i < |at| ensures Pick(a, at)[i].id == Pick(b, at)[i].id {
      assert Ids(a)[at[i]] == Ids(b)[at[i]];
    }
  }

  ghost predicate AllDisciplined<T>(wires: seq<seq<Frame<T>>>, floors: seq<int>) {
    |floors| == |wires| && forall w | 0 <= w < |wires| :: Disciplined(wires[w], floors[w])
  }

  /** No output of the unit leaves a stale frame in force. */
  ghost predicate UnitNeverStale<S, T>(u: Unit<S, T>, rows: seq<Frame<seq<T>>>) {
    forall k: nat | k < u.outs :: NeverStale(Out(u.work, k), u.node, Grouped(rows))
  }

  ghost predicate AllNeverStale<S, T>(units: seq<Unit<S, T>>, wires: seq<seq<Frame<T>>>)
    requires Acyclic(units, |wires|)
    decreases |units|
  {
    |units| > 0 ==>
      && UnitNeverStale(units[0], Rows(wires, units[0].ins))
      && AllNeverStale(units[1..], wires + Sends(units[0], Rows(wires, units[0].ins)))
  }

  lemma UnitExact<S, T>(u: Unit<S, T>, wires: seq<seq<Frame<T>>>, floors: seq<int>)
    requires u.Reads(|wires|) && AllDisciplined(wires, floors) && IdsAgree(wires, u.ins)
    requires -1 <= u.node.currFrame <= floors[u.ins[0]]
    ensures var rows, last := Rows(wires, u.ins), Rows(LastWires(wires), u.ins);
      && IdsAgree(LastWires(wires), u.ins) && AllDisciplined(Sends(u, rows), Floors(u))
      && Run(Out(u.work, 0), u.node, last).0 == Run(Out(u.work, 0), u.node, rows).0
      && (Sends(u, last) == LastWires(Sends(u, rows)) <==> UnitNeverStale(u, rows))
  {
    var rows := Rows(wires, u.ins);
    RowsLast(wires, u.ins);
    SameDiscipline(wires[u.ins[0]], rows, floors[u.ins[0]], u.node.currFrame);
    LastSent(Out(u.work, 0), u.node, rows);
    forall k: nat | k < u.outs
      ensures Disciplined(Sends(u, rows)[k], Floors(u)[k])
      ensures Sends(u, LastOnly(rows))[k] == LastOnly(Sends(u, rows)[k])
              <==> NeverStale(Out(u.work, k), u.node, Grouped(rows))
    {
      LastSent(Out(u.work, k), u.node, rows);
    }
  }

  lemma SameDiscipline<T, U>(a: seq<Frame<T>>, b: seq<Frame<U>>, floor: int, lower: int)
    requires Ids(a) == Ids(b) && Disciplined(a, floor) && lower <= floor
    ensures Disciplined(b, lower)
  {
    assert |Ids(a)| == |Ids(b)|;
    assert forall j | 0 <= j < |b| :: b[j].id == Ids(b)[j] == Ids(a)[j] == a[j].id;
  }

  lemma LastConcat<T>(a: seq<seq<Frame<T>>>, b: seq<seq<Frame<T>>>)
    ensures LastWires(a + b) == LastWires(a) + LastWires(b)
  {
  }

  lemma DisciplinedConcat<T>(a: seq<seq<Frame<T>>>, x: seq<int>, b: seq<seq<Frame<T>>>, y: seq<int>)
    requires AllDisciplined(a, x) && AllDisciplined(b, y)
    ensures AllDisciplined(a + b, x + y)
  {
  }

  /** The wires there were stay as they were. */
  lemma {:induction false} FlowKeeps<S, T>(units: seq<Unit<S, T>>, wires: seq<seq<Frame<T>>>)
    requires Acyclic(units, |wires|)
    ensures |Flow(units, wires).1| >= |wires| && Flow(units, wires).1[..|wires|] == wires
    decreases |units|
  {
    if |units| > 0 { FlowKeeps(units[1..], wires + Sends(units[0], Rows(wires, units[0].ins))); }
  }

  /** The network given only last versions: all nodes end the same, all wires carry the last versions. */
  ghost predicate EndsAsWithLast<S, T>(units: seq<Unit<S, T>>, wires: seq<seq<Frame<T>>>)
    requires Acyclic(units, |wires|)
  {
    Flow(units, LastWires(wires)) == (Flow(units, wires).0, LastWires(Flow(units, wires).1))
  }

  /** How the first node ends, and the wires there are for the others. */
  lemma FlowCons<S, T>(units: seq<Unit<S, T>>, wires: seq<seq<Frame<T>>>, end: Node<S>, more: seq<seq<Frame<T>>>)
    requires Acyclic(units, |wires|) && |units| > 0
    requires end == Run(Out(units[0].work, 0), units[0].node, Rows(wires, units[0].ins)).0
    requires more == wires + Sends(units[0], Rows(wires, units[0].ins))
    ensures Acyclic(units[1..], |more|)
    ensures Flow(units, wires) == ([end] + Flow(units[1..], more).0, Flow(units[1..], more).1)
  {
  }

  /** If the first unit does with last versions what it should, it is up to the others. */
  lemma EndsCons<S, T>(units: seq<Unit<S, T>>, wires: seq<seq<Frame<T>>>)
    requires Acyclic(units, |wires|) && |units| > 0
    requires var u, rows, last := units[0], Rows(wires, units[0].ins), Rows(LastWires(wires), units[0].ins);
      && Run(Out(u.work, 0), u.node, last).0 == Run(Out(u.work, 0), u.node, rows).0
      && LastWires(wires) + Sends(u, last) == LastWires(wires + Sends(u, rows))
    ensures EndsAsWithLast(units, wires) <==>
            EndsAsWithLast(units[1..], wires + Sends(units[0], Rows(wires, units[0].ins)))
  {
    var u, rows := units[0], Rows(wires, units[0].ins);
    var end, more := Run(Out(u.work, 0), u.node, rows).0, wires + Sends(u, rows);
    FlowCons(units, wires, end, more);
    FlowCons(units, LastWires(wires), end, LastWires(more));
    SameTail(end, Flow(units[1..], LastWires(more)).0, Flow(units[1..], more).0);
  }

  lemma SameTail<X>(x: X, a: seq<X>, b: seq<X>)
    ensures [x] + a == [x] + b <==> a == b
  {
    assert ([x] + a)[1..] == a && ([x] + b)[1..] == b;
  }

  /**
   * Rollback in an acyclic network in which no assert that ids agree fails: every node ends as if only
   * last versions had been sent and every wire carries, as last versions, what it would carry then,
   * exactly when no output leaves a stale frame in force. Then no assert fails in that run either.
   */
  lemma {:induction false} NetworkExact<S, T>(units: seq<Unit<S, T>>, wires: seq<seq<Frame<T>>>, floors: seq<int>)
    requires Acyclic(units, |wires|) && AllDisciplined(wires, floors) && UpTo(units, floors) && AllAgree(units, wires)
    ensures EndsAsWithLast(units, wires) <==> AllNeverStale(units, wires)
    ensures AllNeverStale(units, wires) ==> AllAgree(units, LastWires(wires))
    decreases |units|
  {
    if |units| > 0 {
      var u, rows := units[0], Rows(wires, units[0].ins);
      UnitExact(u, wires, floors);
      LastConcat(wires, Sends(u, rows));
      if UnitNeverStale(u, rows) {
        EndsCons(units, wires);
        DisciplinedConcat(wires, floors, Sends(u, rows), Floors(u));
        NetworkExact(units[1..], wires + Sends(u, rows), floors + Floors(u));
      } else if EndsAsWithLast(units, wires) {
        StaleShows(units, wires);
      }
    }
  }

  /** What the first unit reads and writes is on the wires at the end. */
  lemma FlowFirst<S, T>(units: seq<Unit<S, T>>, wires: seq<seq<Frame<T>>>, more: seq<seq<Frame<T>>>)
    requires Acyclic(units, |wires|) && |units| > 0
    requires more == wires + Sends(units[0], Rows(wires, units[0].ins))
    ensures |more| <= |Flow(units, wires).1| && Flow(units, wires).1[..|more|] == more
  {
    var end := Run(Out(units[0].work, 0), units[0].node, Rows(wires, units[0].ins)).0;
    FlowCons(units, wires, end, more);
    FlowKeeps(units[1..], more);
  }

  /** If all wires carry the last versions, so do those the first unit writes. */
  lemma StaleShows<S, T>(units: seq<Unit<S, T>>, wires: seq<seq<Frame<T>>>)
    requires Acyclic(units, |wires|) && |units| > 0 && EndsAsWithLast(units, wires)
    ensures Sends(units[0], Rows(LastWires(wires), units[0].ins)) ==
            LastWires(Sends(units[0], Rows(wires, units[0].ins)))
  {
    var u, lasts := units[0], LastWires(wires);
    var all, last := Sends(u, Rows(wires, u.ins)), Sends(u, Rows(lasts, u.ins));
    FlowFirst(units, wires, wires + all);
    FlowFirst(units, lasts, lasts + last);
    SameWires(wires, all, Flow(units, wires).1, last, Flow(units, lasts).1);
  }

  lemma SameWires<T>(wires: seq<seq<Frame<T>>>, all: seq<seq<Frame<T>>>, a: seq<seq<Frame<T>>>,
                     last: seq<seq<Frame<T>>>, b: seq<seq<Frame<T>>>)
    requires |wires + all| <= |a| && a[..|wires + all|] == wires + all && |last| == |all|
    requires |wires + last| <= |b| && b[..|wires + last|] == LastWires(wires) + last && b == LastWires(a)
    ensures last == LastWires(all)
  {
    forall k | 0 <= k < |all| ensures last[k] == LastOnly(all[k]) {
      assert a[..|wires + all|][|wires| + k] == all[k];
      assert b[..|wires + last|][|wires| + k] == last[k];
    }
  }

  lemma UnitSpeaking<S, T>(u: Unit<S, T>, wires: seq<seq<Frame<T>>>, ids: seq<int>)
    requires u.Reads(|wires|) && AtStart(u.node)
    requires Regular(ids) && SameIds(wires, ids) && UnitSpeaks(u, Rows(wires, u.ins))
    ensures IdsAgree(wires, u.ins) && UnitNeverStale(u, Rows(wires, u.ins))
    ensures SameIds(Sends(u, Rows(wires, u.ins)), ids)
  {
    var rows := Rows(wires, u.ins);
    RowsLast(wires, u.ins);
    assert Ids(wires[u.ins[0]]) == ids;
    forall k: nat | k < u.outs
      ensures Ids(Sends(u, rows)[k]) == ids && NeverStale(Out(u.work, k), u.node, Grouped(rows))
    {
      SpeakingNeverStale(Out(u.work, k), u.node, rows);
    }
  }

  lemma {:induction false} SpeakingAgrees<S, T>(units: seq<Unit<S, T>>, wires: seq<seq<Frame<T>>>, ids: seq<int>)
    requires Acyclic(units, |wires|) && AllAtStart(units)
    requires Regular(ids) && SameIds(wires, ids) && AllSpeak(units, wires)
    ensures AllAgree(units, wires) && AllNeverStale(units, wires)
    decreases |units|
  {
    if |units| > 0 {
      UnitSpeaking(units[0], wires, ids);
      SpeakingAgrees(units[1..], wires + Sends(units[0], Rows(wires, units[0].ins)), ids);
    }
  }

  ghost predicate AllAtStart<S, T>(units: seq<Unit<S, T>>) {
    forall i | 0 <= i < |units| :: AtStart(units[i].node)
  }

  /** At the start nothing has been carried or read. */
  lemma {:induction false} StartUpTo<S, T>(units: seq<Unit<S, T>>, floors: seq<int>)
    requires Acyclic(units, |floors|) && AllAtStart(units) && forall w | 0 <= w < |floors| :: floors[w] == -1
    ensures UpTo(units, floors)
    decreases |units|
  {
    if |units| > 0 { StartUpTo(units[1..], floors + Floors(units[0])); }
  }

  /**
   * So rollback is sound in every acyclic network whose nodes send on all outputs for every frame they
   * read, however many versions of each frame the wires from outside carry: no assert that ids agree
   * fails, and all ends as if only last versions had been sent.
   */
  lemma NetworkSound<S, T>(units: seq<Unit<S, T>>, wires: seq<seq<Frame<T>>>, ids: seq<int>)
    requires Acyclic(units, |wires|) && AllAtStart(units)
    requires Regular(ids) && SameIds(wires, ids) && AllSpeak(units, wires)
    ensures AllAgree(units, wires) && AllAgree(units, LastWires(wires)) && EndsAsWithLast(units, wires)
  {
    var floors := seq(|wires|, _ => -1);
    SpeakingAgrees(units, wires, ids);
    forall w | 0 <= w < |wires| ensures Disciplined(wires[w], -1) {
      assert Ids(wires[w]) == ids;
      RegularDisciplined(wires[w]);
    }
    StartUpTo(units, floors);
    NetworkExact(units, wires, floors);
  }

  lemma SentTwo<S, I, O>(f: Turn<S, I, O>, node: Node<S>, frames: seq<Frame<I>>)
    requires |frames| == 2
    ensures var first := Step(f, node, frames[0]);
      Run(f, node, frames).1 == first.1 + Step(f, first.0, frames[1]).1
  {
    RunSnoc(f, node, frames, 0);
    RunSnoc(f, node, frames, 1);
    assert frames[..2] == frames && frames[..0] == [];
  }

  /** Passes everything on to its first output, and to its second one only 1. */
  function Halting(s: int, items: seq<seq<int>>): (int, seq<seq<int>>) {
    (s, [Port(items, 0), if Port(items, 0) == [1] then [1] else []])
  }

  lemma HaltingSends(node: Node<int>, frames: seq<Frame<seq<int>>>, k: nat)
    requires AtStart(node) && |frames| == 2 && k < 2
    requires frames[0] == Frame(0, [[1]]) && frames[1] == Frame(0, [[2]])
    ensures |Run(Out(Halting, k), node, frames).1| == 2 - k
  {
    var f, last := Out(Halting, k), [2];
    SentTwo(f, node, frames);
    assert f(node.now, [[1]]) == (node.now, [1]);
    assert last[0] == 2 && Port([last], 0) == last;
    assert Halting(node.now, [last]) == (node.now, [last, []]);
    assert f(node.now, [last]) == (node.now, if k == 0 then last else []);
  }

  /**
   * An output that stays silent can stop a network: a node passes on each of two versions of a frame on
   * its first output, but only the first version on its second one; the node that reads both finds two
   * frames on one input and one on the other.
   */
  lemma SilentExample(node: Node<int>)
    requires AtStart(node)
    ensures var wires, units := [[Frame(0, [1]), Frame(0, [2])]],
                                [Unit(Halting, [0], 2, node), Unit(Halting, [1, 2], 0, node)];
      Acyclic(units, 1) && AllAtStart(units) && Regular([0, 0]) && SameIds(wires, [0, 0]) && !AllAgree(units, wires)
  {
    var wires, units := [[Frame(0, [1]), Frame(0, [2])]],
                        [Unit(Halting, [0], 2, node), Unit(Halting, [1, 2], 0, node)];
    var rows := Rows(wires, [0]);
    assert rows[0].items == [[1]] && rows[1].items == [[2]];
    assert Ids(wires[0]) == [0, 0];
    var sent := Sends(units[0], rows);
    HaltingSends(node, rows, 0);
    HaltingSends(node, rows, 1);
    assert units[1..] == [units[1]] && (wires + sent)[1] == sent[0] && (wires + sent)[2] == sent[1];
    assert |Ids(sent[0])| != |Ids(sent[1])|;
    assert units[1].ins[1] == 2 && !IdsAgree(wires + sent, units[1].ins);
  }
}
