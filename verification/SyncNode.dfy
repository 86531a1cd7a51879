/**
 * stream_node::run_sync for any number of inputs and outputs, with what the consumers and producers hold
 * as sequences: one frame is read from each input, all must have the same id and allow as many firings,
 * and every output sends what the firings made for it.
 */
module SyncNodes {
  import opened Rollback
  import opened Seqs
  import Networks
  import Nodes = StreamNodes

  /** What a filter does in one firing: the rates of its inputs, and from a window of each the items of each output. */
  datatype Filters<!S, !T> = Filters(rates: seq<Nodes.Rate>, outputs: nat, work: (S, seq<seq<T>>) -> (S, seq<seq<T>>))

  /** What the node saves at a checkpoint and restores on rollback; left has one sequence for each input. */
  datatype Kept<S, T> = Kept(state: S, iteration: nat, left: seq<seq<T>>)

  /** Every input has items for n firings. */
  ghost predicate Allow<T>(rates: seq<Nodes.Rate>, left: seq<seq<T>>, n: nat) {
    |left| == |rates| && forall i | 0 <= i < |rates| :: Nodes.Taken(n, rates[i]) <= |left[i]|
  }

  function Windows<T>(rates: seq<Nodes.Rate>, left: seq<seq<T>>): seq<seq<T>>
    requires Allow(rates, left, 1)
  {
    seq(|rates|, i requires 0 <= i < |rates| => left[i][..rates[i]])
  }

  function Rests<T>(rates: seq<Nodes.Rate>, left: seq<seq<T>>): (r: seq<seq<T>>)
    requires Allow(rates, left, 1)
    ensures |r| == |rates| && forall i | 0 <= i < |r| :: r[i] == left[i][rates[i]..]
  {
    seq(|rates|, i requires 0 <= i < |rates| => left[i][rates[i]..])
  }

  /** What the outputs hold after one firing more. */
  function Added<T>(outputs: nat, made: seq<seq<T>>, out: seq<seq<T>>): (r: seq<seq<T>>)
    ensures |r| == outputs && forall k | 0 <= k < outputs :: r[k] == Port(made, k) + Port(out, k)
  {
    seq(outputs, k requires 0 <= k => Port(made, k) + Port(out, k))
  }

  /** One firing. */
  function FireOnce<S, T>(f: Filters<S, T>, s: Kept<S, T>, made: seq<seq<T>>): (r: (Kept<S, T>, seq<seq<T>>))
    requires Allow(f.rates, s.left, 1)
    ensures |r.1| == f.outputs
  {
    var (state, out) := f.work(s.state, Windows(f.rates, s.left));
    (Kept(state, s.iteration + 1, Rests(f.rates, s.left)), Added(f.outputs, made, out))
  }

  lemma AllowNext<T>(rates: seq<Nodes.Rate>, left: seq<seq<T>>, n: nat)
    requires Allow(rates, left, n) && n > 0
    ensures Allow(rates, left, 1) && Allow(rates, Rests(rates, left), n - 1)
  {
    forall i | 0 <= i < |rates| ensures Nodes.Taken(1, rates[i]) <= |left[i]| {
      assert Nodes.Taken(n, rates[i]) == Nodes.Taken(n - 1, rates[i]) + rates[i];
    }
  }

  /** n firings, after made has been made. */
  function FireMany<S, T>(f: Filters<S, T>, s: Kept<S, T>, made: seq<seq<T>>, n: nat): (r: (Kept<S, T>, seq<seq<T>>))
    requires Allow(f.rates, s.left, n) && |made| == f.outputs
    ensures |r.1| == f.outputs && |r.0.left| == |f.rates|
    decreases n
  {
    if n == 0 then (s, made)
    else
      AllowNext(f.rates, s.left, n);
      var (after, more) := FireOnce(f, s, made);
      FireMany(f, after, more, n - 1)
  }

  /** The inputs allow n firings each, as the assert in run_sync demands. */
  ghost predicate Agree<T>(rates: seq<Nodes.Rate>, left: seq<seq<T>>, n: nat) {
    |left| == |rates| && forall i | 0 <= i < |rates| :: Nodes.Firings(|left[i]|, rates[i]) == n
  }

  lemma AgreeAllow<T>(rates: seq<Nodes.Rate>, left: seq<seq<T>>, n: nat)
    requires Agree(rates, left, n)
    ensures Allow(rates, left, n)
  {
    forall i | 0 <= i < |rates| ensures Nodes.Taken(n, rates[i]) <= |left[i]| {
      assert Nodes.Firings(|left[i]|, rates[i]) == n;
    }
  }

  /** New items behind what each input had left. */
  function Joined<T>(left: seq<seq<T>>, items: seq<seq<T>>): (r: seq<seq<T>>)
    requires |left| == |items|
    ensures |r| == |left| && forall i | 0 <= i < |r| :: r[i] == left[i] + items[i]
  {
    seq(|left|, i requires 0 <= i < |left| => left[i] + items[i])
  }

  function Nothing<T>(outputs: nat): (r: seq<seq<T>>)
    ensures |r| == outputs && forall k | 0 <= k < outputs :: r[k] == []
  {
    seq(outputs, _ => [])
  }

  /** The node as one that reads bundles, a sequence for each input, and makes bundles; asserts hold if it can fire. */
  ghost predicate CanFire<S, T>(f: Filters<S, T>, s: Kept<S, T>, items: seq<seq<T>>) {
    && |s.left| == |items| == |f.rates| > 0
    && Agree(f.rates, Joined(s.left, items), Nodes.Firings(|s.left[0] + items[0]|, f.rates[0]))
  }

  ghost function Consume<S, T>(f: Filters<S, T>, s: Kept<S, T>, items: seq<seq<T>>): (r: (Kept<S, T>, seq<seq<T>>))
  {
    if CanFire(f, s, items) then
      var all, n := Joined(s.left, items), Nodes.Firings(|s.left[0] + items[0]|, f.rates[0]);
      AgreeAllow(f.rates, all, n);
      FireMany(f, s.(left := all), Nothing(f.outputs), n)
    else (s, Nothing(f.outputs))
  }

  /** What output k sees of the node. */
  ghost function Only<S, T>(f: Filters<S, T>, k: nat): Turn<Kept<S, T>, seq<T>, T> {
    (s: Kept<S, T>, items: seq<seq<T>>) => (Consume(f, s, items).0, Port(Consume(f, s, items).1, k))
  }

  /** A row has one frame from each input. */
  function Bundle<T>(row: seq<Frame<T>>): (b: Frame<seq<T>>)
    requires |row| > 0
    ensures b.id == row[0].id && |b.items| == |row| && forall i | 0 <= i < |row| :: b.items[i] == row[i].items
  {
    Frame(row[0].id, seq(|row|, i requires 0 <= i < |row| => row[i].items))
  }

  /** What a frame's firings start from: what there is now or, for a repeated one, what there was at the checkpoint. */
  function Base<S, T>(v: Node<Kept<S, T>>, id: int): Kept<S, T> {
    if id != -1 && id <= v.currFrame then v.cpoint else v.now
  }

  /** All asserts hold when this row is read: ids agree, none is old, and as many firings are allowed on each input. */
  ghost predicate RowOk<S, T>(f: Filters<S, T>, v: Node<Kept<S, T>>, row: seq<Frame<T>>) {
    && |row| == |f.rates| > 0 && (forall i | 0 <= i < |row| :: row[i].id == row[0].id)
    && (row[0].id == -1 || row[0].id >= v.currFrame) && CanFire(f, Base(v, row[0].id), Bundle(row).items)
  }

  /** One turn of a node, as output k sees it, told by where the firings start. */
  lemma StepFrom<S, T>(f: Filters<S, T>, v: Node<Kept<S, T>>, row: seq<Frame<T>>, k: nat)
    requires |row| > 0 && v.currFrame >= -1
    ensures var id := row[0].id; var (after, out) := Consume(f, Base(v, id), Bundle(row).items);
      var again := id != -1 && id <= v.currFrame;
      var outFrame := if again then v.outFrame - 1 else v.outFrame;
      Step(Only(f, k), v, Bundle(row)) ==
      (Node(after, if id != -1 && !again then v.now else v.cpoint, if id != -1 && !again then id else v.currFrame,
            if id == -1 then outFrame else outFrame + 1),
       Sent(if id == -1 then -1 else outFrame, Port(out, k)))
  {
  }

  /** n more firings from s, with made made so far, come to goal. */
  ghost predicate ComesTo<S, T>(f: Filters<S, T>, s: Kept<S, T>, made: seq<seq<T>>, n: nat,
                                goal: (Kept<S, T>, seq<seq<T>>))
  {
    Allow(f.rates, s.left, n) && |made| == f.outputs && FireMany(f, s, made, n) == goal
  }

  /** What the rows are to the node, one bundle each. */
  function Bundles<T>(rows: seq<seq<Frame<T>>>): (r: seq<Frame<seq<T>>>)
    requires forall row | row in rows :: |row| > 0
    ensures |r| == |rows| && forall j | 0 <= j < |r| :: r[j] == Bundle(rows[j])
  {
    seq(|rows|, j requires 0 <= j < |rows| => Bundle(rows[j]))
  }

  /** The node after the first n rows, and what output k has sent for them. */
  ghost function RowsRun<S, T>(f: Filters<S, T>, v: Node<Kept<S, T>>, rows: seq<seq<Frame<T>>>, n: nat,
                               k: nat): (Node<Kept<S, T>>, seq<Frame<T>>)
    requires n <= |rows| && forall row | row in rows :: |row| > 0
  {
    Run(Only(f, k), v, Bundles(rows)[..n])
  }

  lemma RowsSnoc<S, T>(f: Filters<S, T>, v: Node<Kept<S, T>>, rows: seq<seq<Frame<T>>>, n: nat, k: nat)
    requires n < |rows| && forall row | row in rows :: |row| > 0
    ensures var before := RowsRun(f, v, rows, n, k); var turn := Step(Only(f, k), before.0, Bundle(rows[n]));
      RowsRun(f, v, rows, n + 1, k) == (turn.0, before.1 + turn.1)
  {
    RunSnoc(Only(f, k), v, Bundles(rows), n);
  }

  /** One turn on a row takes the node from v to now, and what the outputs have sent from was to sent. */
  ghost predicate Turned<S, T>(f: Filters<S, T>, v: Node<Kept<S, T>>, was: seq<seq<Frame<T>>>, row: seq<Frame<T>>,
                               now: Node<Kept<S, T>>, sent: seq<seq<Frame<T>>>)
  {
    |row| > 0 && |was| == |sent| == f.outputs && forall k: nat :: TurnedAt(k, f, v, was, row, now, sent)
  }

  ghost predicate TurnedAt<S, T>(k: nat, f: Filters<S, T>, v: Node<Kept<S, T>>, was: seq<seq<Frame<T>>>,
                                 row: seq<Frame<T>>, now: Node<Kept<S, T>>, sent: seq<seq<Frame<T>>>)
    requires |row| > 0 && |was| == |sent| == f.outputs
  {
    && now == Step(Only(f, k), v, Bundle(row)).0
    && (k < f.outputs ==> sent[k] == was[k] + Step(Only(f, k), v, Bundle(row)).1)
  }

  /** From was, the outputs have sent what the first n rows make; now is the node after them. */
  ghost predicate HasRun<S, T>(f: Filters<S, T>, v: Node<Kept<S, T>>, was: seq<seq<Frame<T>>>,
                               rows: seq<seq<Frame<T>>>, n: nat, now: Node<Kept<S, T>>, sent: seq<seq<Frame<T>>>)
  {
    && n <= |rows| && (forall row | row in rows :: |row| > 0) && |was| == |sent| == f.outputs
    && forall k: nat :: HasRunAt(k, f, v, was, rows, n, now, sent)
  }

  ghost predicate HasRunAt<S, T>(k: nat, f: Filters<S, T>, v: Node<Kept<S, T>>, was: seq<seq<Frame<T>>>,
                                 rows: seq<seq<Frame<T>>>, n: nat, now: Node<Kept<S, T>>, sent: seq<seq<Frame<T>>>)
    requires n <= |rows| && (forall row | row in rows :: |row| > 0) && |was| == |sent| == f.outputs
  {
    && now == RowsRun(f, v, rows, n, k).0
    && (k < f.outputs ==> sent[k] == was[k] + RowsRun(f, v, rows, n, k).1)
  }

  lemma HasRunSnoc<S, T>(f: Filters<S, T>, v: Node<Kept<S, T>>, was: seq<seq<Frame<T>>>, rows: seq<seq<Frame<T>>>,
                         n: nat, now: Node<Kept<S, T>>, sent: seq<seq<Frame<T>>>,
                         next: Node<Kept<S, T>>, more: seq<seq<Frame<T>>>)
    requires HasRun(f, v, was, rows, n, now, sent) && n < |rows| && Turned(f, now, sent, rows[n], next, more)
    ensures HasRun(f, v, was, rows, n + 1, next, more)
  {
    var m := n + 1;
    forall k: nat ensures HasRunAt(k, f, v, was, rows, m, next, more) {
      assert HasRunAt(k, f, v, was, rows, n, now, sent) && TurnedAt(k, f, now, sent, rows[n], next, more);
      RowsSnoc(f, v, rows, n, k);
      if k < f.outputs {
        ConcatAssociates(was[k], RowsRun(f, v, rows, n, k).1, Step(Only(f, k), now, Bundle(rows[n])).1);
      }
    }
  }

  lemma HasRunNone<S, T>(f: Filters<S, T>, v: Node<Kept<S, T>>, was: seq<seq<Frame<T>>>, rows: seq<seq<Frame<T>>>)
    requires (forall row | row in rows :: |row| > 0) && |was| == f.outputs
    ensures HasRun(f, v, was, rows, 0, v, was)
  {
    var n := 0;
    forall k: nat ensures HasRunAt(k, f, v, was, rows, n, v, was) { assert Bundles(rows)[..0] == []; }
  }

  /** The asserts hold on the first n rows. */
  ghost predicate AllOk<S, T>(f: Filters<S, T>, v: Node<Kept<S, T>>, rows: seq<seq<Frame<T>>>, n: nat) {
    && n <= |rows| && (forall row | row in rows :: |row| > 0)
    && forall j: nat | j < n :: OkAt(f, v, rows, j)
  }

  ghost predicate OkAt<S, T>(f: Filters<S, T>, v: Node<Kept<S, T>>, rows: seq<seq<Frame<T>>>, j: nat)
    requires j < |rows| && forall row | row in rows :: |row| > 0
  {
    RowOk(f, RowsRun(f, v, rows, j, 0).0, rows[j])
  }

  class SyncNode<S, T> {
    const filter: Filters<S, T>
    var state: S
    var iteration: nat
    /** Of each consumer: the items not yet popped, those backed up, and the id of its last new frame. */
    var left: seq<seq<T>>
    var backup: seq<seq<T>>
    var consFrame: seq<int>
    var cpointState: S
    var cpointIter: nat
    var currFrame: int
    /** Of each producer: the id of its next frame, the items not yet sent, and the frames sent. */
    var prodFrame: seq<int>
    var pending: seq<seq<T>>
    var sent: seq<seq<Frame<T>>>
    /** The id all producers are at. */
    ghost var outFrame: int

    ghost predicate Valid()
      reads this
    {
      && |left| == |backup| == |consFrame| == |filter.rates| > 0 && currFrame >= -1
      && (forall i | 0 <= i < |consFrame| :: consFrame[i] == currFrame)
      && |prodFrame| == |sent| == filter.outputs && pending == Nothing(filter.outputs)
      && forall k | 0 <= k < |prodFrame| :: prodFrame[k] == outFrame
    }

    constructor (filter: Filters<S, T>, init: S)
      requires |filter.rates| > 0
      ensures Valid() && this.filter == filter && sent == Nothing(filter.outputs)
      ensures Value().now == Kept(init, 0, Nothing(|filter.rates|)) && Value().currFrame == -1 && Value().outFrame == 0
    {
      this.filter := filter;
      state, iteration, cpointState, cpointIter, currFrame, outFrame := init, 0, init, 0, -1, 0;
      left, backup := Nothing(|filter.rates|), Nothing(|filter.rates|);
      consFrame := seq(|filter.rates|, _ => -1);
      prodFrame := seq(filter.outputs, _ => 0);
      pending, sent := Nothing(filter.outputs), Nothing(filter.outputs);
    }

    /** The node as a value of the rollback model. */
    ghost function Value(): Node<Kept<S, T>>
      reads this
    {
      Node(Kept(state, iteration, left), Kept(cpointState, cpointIter, backup), currFrame, outFrame)
    }

    /** Consumer i reads a frame; ok is false if its assert fails. */
    method ReadFrame(i: nat, frame: Frame<T>) returns (ok: bool)
      requires i < |left| == |backup| == |consFrame| && consFrame[i] >= -1
      modifies this`left, this`backup, this`consFrame
      ensures ok == (frame.id == -1 || frame.id >= old(consFrame[i]))
      ensures ok ==>
                var again := frame.id != -1 && frame.id <= old(consFrame[i]);
                && left == old(left)[i := old(if again then backup[i] else left[i]) + frame.items]
                && backup == (if frame.id > old(consFrame[i]) then old(backup[i := left[i]]) else old(backup))
                && consFrame ==
                   old(consFrame)[i := if frame.id > old(consFrame[i]) then frame.id else old(consFrame[i])]
    {
      if frame.id == -1 {
      } else if frame.id > consFrame[i] {
        consFrame, backup := consFrame[i := frame.id], backup[i := left[i]];
      } else {
        if frame.id != consFrame[i] { return false; }
        left := left[i := backup[i]];
      }
      left := left[i := left[i] + frame.items];
      ok := true;
    }
  
    /** After the first i frames of a row have been read, v being the node before. */
    ghost predicate HasRead(v: Node<Kept<S, T>>, row: seq<Frame<T>>, i: nat)
      requires |row| > 0
      reads this
    {
      var id := row[0].id;
      && |left| == |backup| == |consFrame| == |v.now.left| == |v.cpoint.left| == |row| >= i && v.currFrame >= -1
      && (forall j {:trigger left[j]} | 0 <= j < |row| ::
            left[j] == if j < i then Base(v, id).left[j] + row[j].items else v.now.left[j])
      && (forall j {:trigger backup[j]} | 0 <= j < |row| ::
            backup[j] == if j < i && id > v.currFrame then v.now.left[j] else v.cpoint.left[j])
      && (forall j {:trigger consFrame[j]} | 0 <= j < |row| ::
            consFrame[j] == if j < i && id > v.currFrame then id else v.currFrame)
    }

    lemma AllRead(v: Node<Kept<S, T>>, row: seq<Frame<T>>)
      requires |row| > 0 && HasRead(v, row, |row|)
      ensures left == Joined(Base(v, row[0].id).left, Bundle(row).items)
      ensures backup == if row[0].id > v.currFrame then v.now.left else v.cpoint.left
    {
    }

    method ReadFirst(row: seq<Frame<T>>) returns (ok: bool, n: nat)
      requires Valid() && |row| == |left|
      modifies this`left, this`backup, this`consFrame
      ensures ok == (row[0].id == -1 || row[0].id >= currFrame)
      ensures ok ==> HasRead(old(Value()), row, 1) && n == Nodes.Firings(|left[0]|, filter.rates[0])
    {
      n := 0;
      ok := ReadFrame(0, row[0]);
      if ok {
        n := |left[0]| / filter.rates[0];
        Nodes.FiringsQuotient(|left[0]|, filter.rates[0]);
      }
    }

    /** Reads a frame from input i, which must agree with the first one's id and number of firings. */
    method ReadNext(ghost v: Node<Kept<S, T>>, row: seq<Frame<T>>, i: nat, n: nat) returns (ok: bool)
      requires 1 <= i < |row| == |filter.rates| && HasRead(v, row, i) && (row[0].id == -1 || row[0].id >= v.currFrame)
      modifies this`left, this`backup, this`consFrame
      ensures ok <==> row[i].id == row[0].id &&
                      Nodes.Firings(|Base(v, row[0].id).left[i] + row[i].items|, filter.rates[i]) == n
      ensures ok ==> HasRead(v, row, i + 1) && forall j | 0 <= j < i :: left[j] == old(left)[j]
    {
      ok := ReadFrame(i, row[i]);
      if !ok { return; }
      if row[i].id != row[0].id { return false; }
      Nodes.FiringsQuotient(|left[i]|, filter.rates[i]);
      ok := n == |left[i]| / filter.rates[i];
    }

    /**
     * Reads a frame from each input; ok is false if an assert fails. n is how many firings the first
     * input allows.
     */
    method ReadRow(row: seq<Frame<T>>) returns (ok: bool, n: nat)
      requires Valid() && |row| == |left|
      modifies this`left, this`backup, this`consFrame
      ensures ok <==> RowOk(filter, old(Value()), row)
      ensures ok ==> HasRead(old(Value()), row, |row|) && Agree(filter.rates, left, n)
    {
      ghost var v := Value();
      ok, n := ReadFirst(row);
      if !ok { return; }
      var i := 1;
      while i < |row|
        invariant 1 <= i <= |row| && HasRead(v, row, i) && (row[0].id == -1 || row[0].id >= v.currFrame)
        invariant forall j | 0 <= j < i :: row[j].id == row[0].id && Nodes.Firings(|left[j]|, filter.rates[j]) == n
      {
        ok := ReadNext(v, row, i, n);
        if !ok { return; }
        i := i + 1;
      }
      AllRead(v, row);
    }
  
    ghost function Now(): Kept<S, T>
      reads this
    {
      Kept(state, iteration, left)
    }

    /** Pops a window from each input, runs the filter's code, and pushes what it makes to each output. */
    method Work()
      requires Allow(filter.rates, left, 1) && |pending| == filter.outputs
      modifies this`state, this`left, this`pending
      ensures (Now().(iteration := iteration + 1), pending) == old(FireOnce(filter, Now(), pending))
    {
      var windows: seq<seq<T>>, i := [], 0;
      ghost var was := left;
      while i < |filter.rates|
        invariant i <= |filter.rates| == |left| == |was| && |windows| == i
        invariant state == old(state) && pending == old(pending)
        invariant forall j | 0 <= j < |left| :: left[j] == if j < i then was[j][filter.rates[j]..] else was[j]
        invariant forall j | 0 <= j < i :: windows[j] == was[j][..filter.rates[j]]
      {
        assert Nodes.Taken(1, filter.rates[i]) <= |was[i]|;
        windows := windows + [left[i][..filter.rates[i]]];
        left := left[i := left[i][filter.rates[i]..]];
        i := i + 1;
      }
      assert windows == Windows(filter.rates, was) && left == Rests(filter.rates, was);
      var (next, out) := filter.work(state, windows);
      state := next;
      PushAll(out);
    }

    /** Every producer takes what the firing made for it. */
    method PushAll(out: seq<seq<T>>)
      requires |pending| == filter.outputs
      modifies this`pending
      ensures pending == Added(filter.outputs, old(pending), out)
    {
      var k := 0;
      while k < filter.outputs
        invariant k <= filter.outputs == |pending|
        invariant forall j | 0 <= j < |pending| ::
                    pending[j] == if j < k then old(pending)[j] + Port(out, j) else old(pending)[j]
      {
        pending := pending[k := pending[k] + Port(out, k)];
        k := k + 1;
      }
    }

    method FireAll(n: nat, ghost goal: (Kept<S, T>, seq<seq<T>>))
      requires ComesTo(filter, Now(), pending, n, goal)
      modifies this`state, this`iteration, this`left, this`pending
      ensures (Now(), pending) == goal
    {
      var y := 0;
      while y < n
        invariant y <= n && ComesTo(filter, Now(), pending, n - y, goal)
      {
        AllowNext(filter.rates, left, n - y);
        Work();
        iteration := iteration + 1;
        y := y + 1;
      }
    }

    /** Every producer sends what it holds, as a pseudo-frame or as the next frame. */
    method FlushAll(id: int)
      requires |pending| == |prodFrame| == |sent| == filter.outputs
      requires forall k | 0 <= k < |prodFrame| :: prodFrame[k] == outFrame
      modifies this`prodFrame, this`pending, this`sent, this`outFrame
      ensures pending == Nothing(filter.outputs) && |prodFrame| == |sent| == filter.outputs
      ensures outFrame == old(outFrame) + if id == -1 then 0 else 1
      ensures forall k | 0 <= k < |prodFrame| :: prodFrame[k] == outFrame
      ensures forall k | 0 <= k < |sent| ::
                sent[k] == old(sent)[k] + Sent(if id == -1 then -1 else old(outFrame), old(pending)[k])
    {
      var k := 0;
      ghost var next := outFrame + if id == -1 then 0 else 1;
      while k < filter.outputs
        invariant k <= filter.outputs == |pending| == |prodFrame| == |sent|
        invariant forall j | 0 <= j < |prodFrame| :: prodFrame[j] == if j < k then next else old(outFrame)
        invariant forall j {:trigger pending[j]} | 0 <= j < |pending| ::
                    pending[j] == if j < k then [] else old(pending)[j]
        invariant forall j {:trigger sent[j]} | 0 <= j < |sent| ::
                    sent[j] == old(sent)[j] +
                               if j < k then Sent(if id == -1 then -1 else old(outFrame), old(pending)[j]) else []
      {
        if |pending[k]| > 0 {
          sent := sent[k := sent[k] + [Frame(if id == -1 then -1 else prodFrame[k], pending[k])]];
        }
        pending := pending[k := []];
        if id != -1 { prodFrame := prodFrame[k := prodFrame[k] + 1]; }
        k := k + 1;
      }
      outFrame := next;
    }

    /** Every producer goes back to the id of the frame it sent last. */
    method DecFrames()
      requires forall k | 0 <= k < |prodFrame| :: prodFrame[k] == outFrame
      modifies this`prodFrame, this`outFrame
      ensures |prodFrame| == old(|prodFrame|) && outFrame == old(outFrame) - 1
      ensures forall k | 0 <= k < |prodFrame| :: prodFrame[k] == outFrame
    {
      var k := 0;
      while k < |prodFrame|
        invariant k <= |prodFrame| == old(|prodFrame|) && outFrame == old(outFrame)
        invariant forall j | 0 <= j < |prodFrame| :: prodFrame[j] == if j < k then outFrame - 1 else outFrame
      {
        prodFrame := prodFrame[k := prodFrame[k] - 1];
        k := k + 1;
      }
      outFrame := outFrame - 1;
    }

    /** Checkpoints on a new frame, restores on a repeated one. */
    method Begin(id: int)
      requires forall k | 0 <= k < |prodFrame| :: prodFrame[k] == outFrame
      modifies this`state, this`iteration, this`cpointState, this`cpointIter, this`currFrame
      modifies this`prodFrame, this`outFrame
      ensures |prodFrame| == old(|prodFrame|) && forall k | 0 <= k < |prodFrame| :: prodFrame[k] == outFrame
      ensures currFrame == if id > old(currFrame) && id != -1 then id else old(currFrame)
      ensures (state, iteration) ==
              if id != -1 && id <= old(currFrame) then old((cpointState, cpointIter)) else old((state, iteration))
      ensures (cpointState, cpointIter) ==
              if id > old(currFrame) && id != -1 then old((state, iteration)) else old((cpointState, cpointIter))
      ensures outFrame == old(outFrame) - if id != -1 && id <= old(currFrame) then 1 else 0
    {
      if id == -1 {
      } else if id > currFrame {
        currFrame := id;
        cpointState, cpointIter := state, iteration;
      } else {
        DecFrames();
        state, iteration := cpointState, cpointIter;
      }
    }
  
    /** What follows once a row has been read: checkpoint or restore, n firings that come to goal, and sending. */
    method FireAndSend(id: int, n: nat, ghost goal: (Kept<S, T>, seq<seq<T>>))
      requires id == -1 || id >= currFrame
      requires |left| == |backup| == |consFrame| == |filter.rates| > 0 && currFrame >= -1
      requires |prodFrame| == |sent| == filter.outputs && pending == Nothing(filter.outputs)
      requires forall i | 0 <= i < |consFrame| :: consFrame[i] == if id > currFrame then id else currFrame
      requires forall k | 0 <= k < |prodFrame| :: prodFrame[k] == outFrame
      requires ComesTo(filter, Base(Value(), id).(left := left), pending, n, goal)
      modifies this
      ensures Valid() && Now() == goal.0 && backup == old(backup)
      ensures currFrame == if id > old(currFrame) then id else old(currFrame)
      ensures Value().cpoint ==
              if id > old(currFrame) then old(Kept(state, iteration, backup)) else old(Value().cpoint)
      ensures outFrame == old(outFrame) + if id > old(currFrame) then 1 else 0
      ensures forall k | 0 <= k < filter.outputs ::
                sent[k] == old(sent)[k] + Sent(if id == -1 then -1 else outFrame - 1, goal.1[k])
    {
      Begin(id);
      FireAll(n, goal);
      FlushAll(id);
    }

    /** One turn of the run_sync loop on a row of frames, one from each input; ok is false if an assert fails. */
    method Turn(row: seq<Frame<T>>) returns (ok: bool)
      requires Valid() && |row| == |left|
      modifies this
      ensures ok <==> RowOk(filter, old(Value()), row)
      ensures ok ==> Valid() && Turned(filter, old(Value()), old(sent), row, Value(), sent)
    {
      ghost var v := Value();
      var n;
      ok, n := ReadRow(row);
      if !ok { return; }
      ghost var goal := Consume(filter, Base(v, row[0].id), Bundle(row).items);
      AllRead(v, row);
      AgreeAllow(filter.rates, left, n);
      FireAndSend(row[0].id, n, goal);
      forall k: nat ensures TurnedAt(k, filter, v, old(sent), row, Value(), sent) { StepFrom(filter, v, row, k); }
    }
  
    /**
     * The run_sync loop, until enough firings are done or the rows run out; ok is false if an assert
     * fails, which it does exactly on a row that is not RowOk. read counts the rows read before.
     */
    method RunSync(rows: seq<seq<Frame<T>>>, num: nat) returns (ok: bool, read: nat)
      requires Valid() && forall row | row in rows :: |row| == |left|
      modifies this
      ensures AllOk(filter, old(Value()), rows, read)
      ensures !ok ==> read < |rows| && !OkAt(filter, old(Value()), rows, read)
      ensures ok ==> Valid() && (iteration >= num || read == |rows|)
      ensures ok ==> HasRun(filter, old(Value()), old(sent), rows, read, Value(), sent)
    {
      ghost var v, was := Value(), sent;
      ok, read := true, 0;
      HasRunNone(filter, v, was, rows);
      while iteration < num && read < |rows|
        invariant Valid() && |left| == |filter.rates|
        invariant AllOk(filter, v, rows, read) && HasRun(filter, v, was, rows, read, Value(), sent)
        decreases |rows| - read
      {
        ghost var now, before := Value(), sent;
        assert HasRunAt(0, filter, v, was, rows, read, now, before);
        assert rows[read] in rows;
        ok := Turn(rows[read]);
        if !ok { return; }
        HasRunSnoc(filter, v, was, rows, read, now, before, Value(), sent);
        read := read + 1;
      }
    }
  }

  /**
   * Rollback is sound for a node with any number of inputs and outputs: whatever versions were tried,
   * it ends as if only the last version of each frame had come, and the frames of every output are again
   * versions of frames.
   */
  lemma ManySound<S, T>(f: Filters<S, T>, v: Node<Kept<S, T>>, rows: seq<seq<Frame<T>>>, n: nat, k: nat)
    requires n <= |rows| && (forall row | row in rows :: |row| > 0) && v.currFrame >= -1
    requires Disciplined(Bundles(rows)[..n], v.currFrame)
    ensures RowsRun(f, v, rows, n, k).0 == Run(Only(f, k), v, Latest(Grouped(Bundles(rows)[..n]))).0
    ensures Disciplined(RowsRun(f, v, rows, n, k).1, v.outFrame - 1)
  {
    RollbackSound(Only(f, k), v, Bundles(rows)[..n]);
  }

  /** The node as a unit of a network. */
  ghost function Whole<S, T>(f: Filters<S, T>): Turn<Kept<S, T>, seq<T>, seq<T>> {
    (s: Kept<S, T>, items: seq<seq<T>>) => Consume(f, s, items)
  }

  lemma {:induction false} OnlyIsOut<S, T>(f: Filters<S, T>, v: Node<Kept<S, T>>, frames: seq<Frame<seq<T>>>, k: nat)
    ensures Run(Only(f, k), v, frames) == Run(Networks.Out(Whole(f), k), v, frames)
    decreases |frames|
  {
    if |frames| > 0 {
      assert Step(Only(f, k), v, frames[0]) == Step(Networks.Out(Whole(f), k), v, frames[0]);
      OnlyIsOut(f, Step(Only(f, k), v, frames[0]).0, frames[1..], k);
    }
  }
}
