/**
 * A node of the cluster runtime that reads frames, checkpoints, rolls back and sends frames:
 * consumer3, producer3 and stream_node::run_sync.
 */
module StreamNodes {
  import opened Rollback
  import opened Seqs
  import Bits
  import Buffers = FrameBuffers

  const CONSUMER_BUFFER_SIZE := Buffers.CONSUMER_BUFFER_SIZE
  const BACKUP_SIZE := Buffers.BACKUP_SIZE
  const PRODUCER_BUFFER_SIZE: nat := 10000

  type Rate = n: nat | n > 0 witness 1

  /** What a filter does in one firing: consume popRate items, change state, produce items. */
  datatype Filter<!S, !I, !O> = Filter(popRate: Rate, work: (S, seq<I>) -> (S, seq<O>))

  /** What the node saves at a checkpoint and restores on rollback. */
  datatype Saved<S, I> = Saved(state: S, iteration: nat, left: seq<I>)

  /** How many items n firings take. */
  function Taken(n: nat, rate: nat): nat {
    if n == 0 then 0 else Taken(n - 1, rate) + rate
  }

  /** How many whole firings size items allow. */
  function Firings(size: nat, rate: Rate): (n: nat)
    ensures Taken(n, rate) <= size < Taken(n, rate) + rate
  {
    if size < rate then 0 else Firings(size - rate, rate) + 1
  }

  lemma {:induction false} TakenProduct(n: nat, rate: nat)
    ensures Taken(n, rate) == rate * n
  {
    if n > 0 { TakenProduct(n - 1, rate); }
  }

  lemma FiringsQuotient(size: nat, rate: Rate)
    ensures Firings(size, rate) == size / rate
  {
    var n := Firings(size, rate);
    TakenProduct(n, rate);
    Bits.ModUnique(size, rate, n, size - Taken(n, rate));
  }

  /** One firing. */
  function Once<S, I, O>(f: Filter<S, I, O>, s: Saved<S, I>): (r: (Saved<S, I>, seq<O>))
    requires f.popRate <= |s.left|
    ensures r.0.left == s.left[f.popRate..] && r.0.iteration == s.iteration + 1
  {
    var (state, out) := f.work(s.state, s.left[..f.popRate]);
    (Saved(state, s.iteration + 1, s.left[f.popRate..]), out)
  }

  /** n firings, after made has been made. */
  function Fire<S, I, O>(f: Filter<S, I, O>, s: Saved<S, I>, made: seq<O>, n: nat): (r: (Saved<S, I>, seq<O>))
    requires Taken(n, f.popRate) <= |s.left|
    ensures r.0.left == s.left[Taken(n, f.popRate)..] && r.0.iteration == s.iteration + n
    ensures |r.1| >= |made|
    decreases n
  {
    if n == 0 then (s, made)
    else
      var (after, out) := Once(f, s);
      Fire(f, after, made + out, n - 1)
  }

  /** Everything the filter can do with new items appended to what was left over. */
  function Consume<S, I, O>(f: Filter<S, I, O>, s: Saved<S, I>, items: seq<I>): (r: (Saved<S, I>, seq<O>))
    ensures |r.0.left| < f.popRate
  {
    var all := s.(left := s.left + items);
    Fire(f, all, [], Firings(|all.left|, f.popRate))
  }

  /** n more firings from p, a value and the output made so far, come to goal. */
  ghost predicate FiresTo<S, I, O>(f: Filter<S, I, O>, p: (Saved<S, I>, seq<O>), n: nat, goal: (Saved<S, I>, seq<O>)) {
    forall u: nat :: FiresToAt(u, f, p, n, goal)
  }

  ghost predicate FiresToAt<S, I, O>(unused: nat, f: Filter<S, I, O>, p: (Saved<S, I>, seq<O>), n: nat,
                                     goal: (Saved<S, I>, seq<O>))
  {
    Taken(n, f.popRate) <= |p.0.left| && Fire(f, p.0, p.1, n) == goal
  }

  lemma FiresOnce<S, I, O>(f: Filter<S, I, O>, p: (Saved<S, I>, seq<O>), n: nat, goal: (Saved<S, I>, seq<O>))
    requires FiresTo(f, p, n, goal) && n > 0
    ensures f.popRate <= |p.0.left| && |p.1 + Once(f, p.0).1| <= |goal.1|
    ensures FiresTo(f, (Once(f, p.0).0, p.1 + Once(f, p.0).1), n - 1, goal)
  {
    assert FiresToAt(0, f, p, n, goal);
    var q, m := (Once(f, p.0).0, p.1 + Once(f, p.0).1), n - 1;
    forall u: nat ensures FiresToAt(u, f, q, m, goal) { }
  }

  lemma FiresNone<S, I, O>(f: Filter<S, I, O>, p: (Saved<S, I>, seq<O>), goal: (Saved<S, I>, seq<O>))
    requires FiresTo(f, p, 0, goal)
    ensures p == goal
  {
    assert FiresToAt(0, f, p, 0, goal);
  }

  lemma FiresLeft<S, I, O>(f: Filter<S, I, O>, p: (Saved<S, I>, seq<O>), n: nat, goal: (Saved<S, I>, seq<O>))
    requires FiresTo(f, p, n, goal)
    ensures |goal.0.left| + Taken(n, f.popRate) == |p.0.left|
  {
    assert FiresToAt(0, f, p, n, goal);
  }

  lemma ConsumeFires<S, I, O>(f: Filter<S, I, O>, s: Saved<S, I>, items: seq<I>)
    ensures var p := (s.(left := s.left + items), []);
      FiresTo(f, p, Firings(|p.0.left|, f.popRate), Consume(f, s, items))
  {
    var p: (Saved<S, I>, seq<O>) := (s.(left := s.left + items), []);
    var n, goal := Firings(|p.0.left|, f.popRate), Consume(f, s, items);
    forall u: nat ensures FiresToAt(u, f, p, n, goal) { }
  }

  /** One turn of a node, told by where the firings start. */
  lemma StepFrom<S, I, O>(f: Filter<S, I, O>, v: Node<Saved<S, I>>, id: int, items: seq<I>)
    requires v.currFrame >= -1 && (id == -1 || id >= v.currFrame)
    ensures var base := if -1 < id == v.currFrame then v.cpoint else v.now;
      var (after, out) := Consume(f, base, items);
      var outFrame := if -1 < id == v.currFrame then v.outFrame - 1 else v.outFrame;
      var (v', sent) := Step(Consumer(f), v, Frame(id, items));
      && v' == Node(after, if id > v.currFrame then v.now else v.cpoint, if id > v.currFrame then id else v.currFrame,
                    if id == -1 then outFrame else outFrame + 1)
      && sent == Sent(if id == -1 then -1 else outFrame, out)
  {
  }

  /** The filter as a node that reads frames. */
  function Consumer<S, I, O>(f: Filter<S, I, O>): Turn<Saved<S, I>, I, O> {
    (s: Saved<S, I>, items: seq<I>) => Consume(f, s, items)
  }

  // ---- Frames the buffers have room for ----

  /** The consumer's counts after all firings that the items allow. */
  function Fired(rate: Rate, c: Buffers.Counts): (d: Buffers.Counts)
    requires c.Ok()
    ensures d.Ok()
  {
    Buffers.Counted(c, Buffers.Pops(Taken(Firings(c.Left(), rate), rate)))
  }

  lemma FiredClean<T>(was: Buffers.Reader<T>, c: Buffers.Counts, rate: Rate, taken: nat, now: Buffers.Reader<T>)
    requires Buffers.Clean(was, c) && was.offs <= was.count && taken == Taken(Firings(was.Left(), rate), rate)
    requires now == was.(offs := was.offs + taken)
    ensures c.Ok() && Buffers.Clean(now, Fired(rate, c))
  {
    Buffers.CleanAgrees(was, c);
    Buffers.CleanPop(was, c, taken, now, Fired(rate, c));
  }

  /** The consumer's counts after a frame has been read and all firings it allows are done. */
  function Track(rate: Rate, c: Buffers.Counts, kind: Buffers.Kind, n: nat): (d: Buffers.Counts)
    requires Buffers.Roomy(c, kind, n)
    ensures d.Ok()
  {
    Fired(rate, Buffers.CountedFrame(c, kind, n))
  }

  /**
   * A frame the node's buffers have room for, in sequence with those before it. If it is a repeated one,
   * no more of the saved items may have been overwritten than will be copied back.
   */
  ghost predicate FrameFits<S, I, O>(f: Filter<S, I, O>, v: Node<Saved<S, I>>, c: Buffers.Counts, frame: Frame<I>) {
    var kind := Buffers.KindOf(frame.id, v.currFrame);
    && (frame.id == -1 || frame.id >= v.currFrame) && frame.id >= -1
    && Buffers.Roomy(c, kind, |frame.items|) && (kind.Repeated? ==> c.Restores())
    && |Consume(f, if kind.Repeated? then v.cpoint else v.now, frame.items).1| <= PRODUCER_BUFFER_SIZE
  }

  /** The counts after frames, as far as they fit. */
  function TrackAll<S, I, O>(f: Filter<S, I, O>, v: Node<Saved<S, I>>, c: Buffers.Counts,
                             frames: seq<Frame<I>>): Buffers.Counts
    requires AllFit(f, v, c, frames)
    decreases |frames|, 1
  {
    if |frames| == 0 then c
    else
      var n := |frames| - 1;
      Track(f.popRate, TrackAll(f, v, c, frames[..n]),
            Buffers.KindOf(frames[n].id, Run(Consumer(f), v, frames[..n]).0.currFrame), |frames[n].items|)
  }

  /** Every frame fits when it comes. */
  ghost predicate AllFit<S, I, O>(f: Filter<S, I, O>, v: Node<Saved<S, I>>, c: Buffers.Counts, frames: seq<Frame<I>>)
    decreases |frames|, 0
  {
    if |frames| == 0 then c.Ok()
    else
      var n := |frames| - 1;
      && AllFit(f, v, c, frames[..n])
      && FrameFits(f, Run(Consumer(f), v, frames[..n]).0, TrackAll(f, v, c, frames[..n]), frames[n])
  }

  lemma {:induction false} PrefixFits<S, I, O>(f: Filter<S, I, O>, v: Node<Saved<S, I>>, c: Buffers.Counts,
                                                frames: seq<Frame<I>>, k: nat)
    requires AllFit(f, v, c, frames) && k <= |frames|
    ensures AllFit(f, v, c, frames[..k])
    decreases |frames|
  {
    if k == |frames| {
      assert frames[..k] == frames;
    } else {
      assert frames[..|frames| - 1][..k] == frames[..k];
      PrefixFits(f, v, c, frames[..|frames| - 1], k);
    }
  }

  lemma NextFits<S, I, O>(f: Filter<S, I, O>, v: Node<Saved<S, I>>, c: Buffers.Counts, frames: seq<Frame<I>>, k: nat)
    requires AllFit(f, v, c, frames) && k < |frames|
    ensures AllFit(f, v, c, frames[..k]) && AllFit(f, v, c, frames[..k + 1])
    ensures FrameFits(f, Run(Consumer(f), v, frames[..k]).0, TrackAll(f, v, c, frames[..k]), frames[k])
    ensures TrackAll(f, v, c, frames[..k + 1]) ==
            Track(f.popRate, TrackAll(f, v, c, frames[..k]),
                  Buffers.KindOf(frames[k].id, Run(Consumer(f), v, frames[..k]).0.currFrame), |frames[k].items|)
  {
    PrefixFits(f, v, c, frames, k);
    PrefixFits(f, v, c, frames, k + 1);
    assert frames[..k + 1][..k] == frames[..k];
  }

  /** No fewer than n frames take the node to the iteration where its run ends. */
  ghost predicate NeedsAll<S, I, O>(f: Turn<Saved<S, I>, I, O>, v: Node<Saved<S, I>>, frames: seq<Frame<I>>, n: nat,
                                    num: nat)
  {
    forall k: nat | k < n :: Unfinished(f, v, frames, k, num)
  }

  ghost predicate Unfinished<S, I, O>(f: Turn<Saved<S, I>, I, O>, v: Node<Saved<S, I>>, frames: seq<Frame<I>>, k: nat,
                                      num: nat)
  {
    k <= |frames| && Run(f, v, frames[..k]).0.now.iteration < num
  }

  lemma NeedsOneMore<S, I, O>(f: Turn<Saved<S, I>, I, O>, v: Node<Saved<S, I>>, frames: seq<Frame<I>>, n: nat, num: nat)
    requires NeedsAll(f, v, frames, n, num) && n <= |frames| && Run(f, v, frames[..n]).0.now.iteration < num
    ensures NeedsAll(f, v, frames, n + 1, num)
  {
  }

  class Consumer3<T(0)> {
    const buf: array<T>
    const buf2: array<T>
    var offs: nat
    var itemCount: nat
    var frameId: int
    var lastFrameId: int
    var backupSize: nat
    /** The items not yet popped. */
    ghost var items: seq<T>
    /** The items backed up with the last new frame. */
    ghost var backup: seq<T>

    ghost function View(): Buffers.Reader<T>
      reads this, buf, buf2
    {
      Buffers.Reader(buf[..], buf2[..], offs, itemCount, backupSize)
    }

    ghost predicate Valid()
      reads this, buf, buf2
    {
      && buf.Length == CONSUMER_BUFFER_SIZE && buf2.Length == BACKUP_SIZE && buf != buf2
      && offs <= itemCount <= CONSUMER_BUFFER_SIZE && backupSize <= BACKUP_SIZE && frameId >= -1
      && items == buf[offs..itemCount] && backup == buf2[..backupSize]
    }

    constructor ()
      ensures Valid() && fresh(buf) && fresh(buf2) && View() == Buffers.Fresh(buf[..], buf2[..])
      ensures items == [] && backup == [] && frameId == -1 && Tracked(Buffers.Counts(0, 0, 0, false, 0))
    {
      buf := new T[CONSUMER_BUFFER_SIZE];
      buf2 := new T[BACKUP_SIZE];
      offs, itemCount, backupSize, frameId, lastFrameId := 0, 0, 0, -1, -1;
      items, backup := [], [];
      new;
      Buffers.FreshClean(buf[..], buf2[..]);
    }

    /** The counts c are those of this consumer, and tell which of the saved items are still in place. */
    ghost predicate Tracked(c: Buffers.Counts)
      reads this, buf, buf2
    {
      Buffers.Clean(View(), c)
    }

    lemma ValidView()
      requires Valid()
      ensures View().Ok() && items == View().Pending() && backup == View().Saved()
    {
      assert buf[..][offs..itemCount] == buf[offs..itemCount] && buf2[..][..backupSize] == buf2[..backupSize];
    }

    lemma PoppedView(was: Buffers.Reader<T>, taken: nat)
      requires Valid() && was == View().(offs := was.offs) && was.offs <= was.count && |items| + taken == was.Left()
      ensures View() == was.(offs := was.offs + taken)
    {
    }

    /** Moves the items not yet popped to the front of the buffer. */
    method ShiftLeftover()
      requires Valid() && View().Ok()
      modifies this`itemCount, buf
      ensures itemCount == old(itemCount) - offs && buf[..] == Buffers.Shifted(old(View()))
    {
      ghost var was := View();
      var y := offs;
      while y < itemCount
        invariant offs <= y <= itemCount == old(itemCount)
        invariant forall k | 0 <= k < y - offs :: buf[k] == was.buf[offs + k]
        invariant forall k | y - offs <= k < buf.Length :: buf[k] == was.buf[k]
      {
        buf[y - offs] := buf[y];
        y := y + 1;
      }
      itemCount := itemCount - offs;
      Buffers.ShiftedIs(was, buf[..]);
    }

    static method CopyItems(from: array<T>, to: array<T>, n: nat)
      requires from != to && n <= from.Length && n <= to.Length
      modifies to
      ensures to[..] == from[..n] + old(to[n..])
    {
      ghost var was := to[..];
      var y := 0;
      while y < n
        invariant 0 <= y <= n
        invariant forall k | 0 <= k < y :: to[k] == from[k]
        invariant forall k | y <= k < to.Length :: to[k] == was[k]
      {
        to[y] := from[y];
        y := y + 1;
      }
    }

    /**
     * Reads one frame from the socket. A new frame backs up the leftover items first; a repeated one
     * puts the backup back; a pseudo-frame (id -1) does neither.
     */
    method ReadFrame(id: int, more: seq<T>)
      requires Valid() && (id == -1 || id >= frameId)
      requires Buffers.Fits(View(), Buffers.KindOf(id, frameId), |more|)
      modifies this, buf, buf2
      ensures Valid() && lastFrameId == id && frameId == (if id == -1 then old(frameId) else id) && offs == 0
      ensures Buffers.Reads(old(View()), Buffers.KindOf(id, old(frameId)), more, View())
      ensures backup == if id > old(frameId) then old(items) else old(backup)
      ensures items == (if -1 < id == old(frameId) then old(Buffers.GottenBack(View())) else old(items)) + more
    {
      ValidView();
      ghost var was, kind := View(), Buffers.KindOf(id, frameId);
      Buffers.ReadPending(was, kind, more);
      ghost var goal := Buffers.Prepared(was, kind);
      Prepare(id);
      AppendItems(more, goal);
      items, backup := View().Pending(), View().Saved();
      forall u: nat ensures Buffers.ReadsAt(u, was, kind, more, View()) { }
    }

    /** What reading a frame does before its items come. */
    method Prepare(id: int)
      requires Valid() && View().Ok() && (id == -1 || id >= frameId)
      requires id == -1 || View().Left() <= BACKUP_SIZE
      modifies this`itemCount, this`lastFrameId, this`frameId, this`backupSize, buf, buf2
      ensures lastFrameId == id && frameId == (if id == -1 then old(frameId) else id)
      ensures View().(offs := 0) == old(Buffers.Prepared(View(), Buffers.KindOf(id, frameId)))
    {
      ShiftLeftover();
      lastFrameId := id;
      if lastFrameId == -1 {
      } else if lastFrameId > frameId {
        frameId := lastFrameId;
        CopyItems(buf, buf2, itemCount);
        backupSize := itemCount;
      } else {
        CopyItems(buf2, buf, itemCount);
        itemCount := backupSize;
      }
    }

    /** The socket fills the buffer behind the items it holds; was is what the buffers hold. */
    method AppendItems(more: seq<T>, ghost was: Buffers.Reader<T>)
      requires was == View().(offs := 0) && was.Ok() && was.count + |more| <= CONSUMER_BUFFER_SIZE && buf != buf2
      modifies this`itemCount, this`offs, buf
      ensures View() == Buffers.Appended(was, more)
    {
      var y := 0;
      while y < |more|
        invariant 0 <= y <= |more| && itemCount == was.count
        invariant forall k | 0 <= k < buf.Length ::
                    buf[k] == if itemCount <= k < itemCount + y then more[k - itemCount] else was.buf[k]
      {
        buf[itemCount + y] := more[y];
        y := y + 1;
      }
      itemCount := itemCount + |more|;
      offs := 0;
      Buffers.AppendedIs(was, more, buf[..]);
    }

    method GetSize() returns (size: nat)
      requires Valid()
      ensures size == |items|
    {
      size := itemCount - offs;
    }

    method Pop() returns (item: T)
      requires Valid() && |items| > 0
      modifies this`offs, this`items
      ensures Valid() && [item] + items == old(items) && offs == old(offs) + 1
    {
      item := buf[offs];
      offs, items := offs + 1, items[1..];
    }

    method Peek(index: nat) returns (item: T)
      requires Valid() && index < |items|
      ensures item == items[index]
    {
      item := buf[offs + index];
    }

    /** The pops of one firing. */
    method PopWindow(num: nat) returns (window: seq<T>)
      requires Valid() && num <= |items|
      modifies this`offs, this`items
      ensures Valid() && window == old(items)[..num] && items == old(items)[num..]
    {
      window := [];
      while |window| < num
        invariant Valid() && |window| <= num
        invariant window == old(items)[..|window|] && items == old(items)[|window|..]
      {
        var item := Pop();
        window := window + [item];
      }
    }

    method PopItems(data: array<T>, num: nat)
      requires Valid() && num <= |items| && num <= data.Length && data != buf && data != buf2
      modifies this`offs, this`items, data
      ensures Valid() && data[..num] + items == old(items) && data[num..] == old(data[num..])
    {
      var i := 0;
      while i < num
        invariant 0 <= i <= num && offs == old(offs) + i && items == old(items)
        invariant forall k | 0 <= k < i :: data[k] == buf[old(offs) + k]
        invariant forall k | i <= k < data.Length :: data[k] == old(data[k])
      {
        data[i] := buf[offs];
        i, offs := i + 1, offs + 1;
      }
      items := items[num..];
    }
  }

  /** Frame 1 is read when 1 is left over from frame 0, and 1 is popped; saved is how the buffers stood before that. */
  method ReadOnce() returns (c: Consumer3<int>, first: int, ghost saved: Buffers.Reader<int>)
    ensures fresh(c) && fresh(c.buf) && fresh(c.buf2) && c.Valid() && c.frameId == 1
    ensures first == 1 && c.items == [2] && c.View() == saved.(offs := 1)
    ensures saved.offs == 0 && saved.Ok() && saved.Pending() == [1, 2] && saved.Saved() == [1]
  {
    c := new Consumer3<int>();
    c.ReadFrame(0, [1]);
    assert c.items == [1];
    c.ReadFrame(1, [2]);
    assert c.items == [1, 2];
    saved := c.View();
    c.ValidView();
    first := c.Pop();
  }

  /**
   * A pseudo-frame loses a saved item: 1 comes first from frame 1; after a pseudo-frame the same frame
   * is read again, and what comes first is 2.
   */
  method ReadTwice() returns (first: int, again: int)
    ensures first == 1 && again == 2
  {
    var c;
    ghost var saved;
    c, first, saved := ReadOnce();
    c.ReadFrame(-1, [9]);
    c.ValidView();
    ghost var moved := c.View();
    Buffers.LostAgain(saved, moved);
    assert c.items == [2, 9];
    var two := c.Pop();
    var nine := c.Pop();
    assert c.View() == moved.(offs := 2);
    c.ReadFrame(1, [2]);
    assert c.items == [2, 2];
    again := c.Pop();
  }

  class Producer3<T(0)> {
    const buf: array<T>
    var offs: nat
    var frameId: int
    /** What has been written to the socket. */
    var sent: seq<Frame<T>>

    /** What has been pushed and not yet sent. */
    ghost var pending: seq<T>

    ghost predicate Valid()
      reads this, buf
    {
      buf.Length == PRODUCER_BUFFER_SIZE && offs <= PRODUCER_BUFFER_SIZE && pending == buf[..offs]
    }

    constructor ()
      ensures Valid() && fresh(buf) && pending == [] && frameId == 0 && sent == []
    {
      buf := new T[PRODUCER_BUFFER_SIZE];
      offs, frameId, sent, pending := 0, 0, [], [];
    }

    method Push(data: T)
      requires Valid() && offs < PRODUCER_BUFFER_SIZE
      modifies this`offs, this`pending, buf
      ensures Valid() && pending == old(pending) + [data]
    {
      buf[offs] := data;
      offs, pending := offs + 1, pending + [data];
    }

    method PushItems(data: seq<T>)
      requires Valid() && offs + |data| <= PRODUCER_BUFFER_SIZE
      modifies this`offs, this`pending, buf
      ensures Valid() && pending == old(pending) + data
    {
      for i := 0 to |data|
        invariant Valid() && offs == old(offs) + i && pending == old(pending) + data[..i]
      {
        Push(data[i]);
      }
    }

    method SendBuffer()
      requires Valid()
      modifies this`offs, this`pending, this`sent
      ensures Valid() && pending == [] && sent == old(sent) + [Frame(frameId, old(pending))]
    {
      sent := sent + [Frame(frameId, buf[..offs])];
      offs, pending := 0, [];
    }

    method Flush()
      requires Valid()
      modifies this`offs, this`pending, this`sent
      ensures Valid() && pending == [] && sent == old(sent) + Sent(frameId, old(pending))
    {
      if offs > 0 { SendBuffer(); }
    }

    method FlushPseudo()
      requires Valid()
      modifies this`offs, this`pending, this`sent, this`frameId
      ensures Valid() && pending == [] && frameId == old(frameId) && sent == old(sent) + Sent(-1, old(pending))
    {
      var id := frameId;
      frameId := -1;
      if offs > 0 { SendBuffer(); }
      frameId := id;
    }
  }

  class StreamNode<S, I(0), O(0)> {
    const filter: Filter<S, I, O>
    const cons: Consumer3<I>
    const prod: Producer3<O>
    var state: S
    var iteration: nat
    var cpointState: S
    var cpointIter: nat
    var currFrame: int

    ghost predicate Valid()
      reads this, cons, prod, cons.buf, cons.buf2, prod.buf
    {
      Apart() && prod.pending == [] && currFrame == cons.frameId
    }

    ghost predicate Apart()
      reads cons, prod, cons.buf, cons.buf2, prod.buf
    {
      forall u: nat :: ApartAt(u)
    }

    ghost predicate ApartAt(unused: nat)
      reads cons, prod, cons.buf, cons.buf2, prod.buf
    {
      && (cons as object) != prod && (cons.buf as object) != prod.buf && (cons.buf2 as object) != prod.buf
      && cons.Valid() && prod.Valid()
    }

    constructor (filter: Filter<S, I, O>, init: S)
      ensures Valid() && fresh(cons) && fresh(cons.buf) && fresh(cons.buf2) && fresh(prod) && fresh(prod.buf)
      ensures this.filter == filter && prod.sent == [] && cons.Tracked(Buffers.Counts(0, 0, 0, false, 0))
      ensures Value().now == Saved(init, 0, []) && Value().currFrame == -1 && Value().outFrame == 0
    {
      this.filter := filter;
      cons := new Consumer3();
      prod := new Producer3();
      state, iteration, currFrame := init, 0, -1;
      cpointState, cpointIter := init, 0;
    }

    ghost function Now(): Saved<S, I>
      reads this, cons
    {
      Saved(state, iteration, cons.items)
    }

    /** The current value together with the output not yet sent. */
    ghost function Progress(): (Saved<S, I>, seq<O>)
      reads this, cons, prod
    {
      (Now(), prod.pending)
    }

    /** The node as a value of the rollback model. */
    ghost function Value(): Node<Saved<S, I>>
      reads this, cons, prod
    {
      Node(Now(), Saved(cpointState, cpointIter, cons.backup), currFrame, prod.frameId)
    }

    method DoCpoint()
      modifies this`cpointState, this`cpointIter
      ensures cpointState == state && cpointIter == iteration
    {
      cpointState := state;
      cpointIter := iteration;
    }

    method RestoreCpoint()
      modifies this`state, this`iteration
      ensures state == cpointState && iteration == cpointIter
    {
      state := cpointState;
      iteration := cpointIter;
    }

    /** One firing: pops the filter's window, runs its code, pushes what it makes. */
    method Work()
      requires Apart() && |cons.items| >= filter.popRate
      requires |prod.pending + Once(filter, Now()).1| <= PRODUCER_BUFFER_SIZE
      modifies this`state, cons`offs, cons`items, prod`offs, prod`pending, prod.buf
      ensures Apart()
      ensures Now().(iteration := iteration + 1) == old(Once(filter, Now()).0)
      ensures prod.pending == old(prod.pending + Once(filter, Now()).1)
    {
      assert ApartAt(0);
      var window := cons.PopWindow(filter.popRate);
      var (next, out) := filter.work(state, window);
      state := next;
      assert ApartAt(0);
      prod.PushItems(out);
    }

    method FireOne()
      requires Apart() && |cons.items| >= filter.popRate
      requires |prod.pending + Once(filter, Now()).1| <= PRODUCER_BUFFER_SIZE
      modifies this`state, this`iteration, cons`offs, cons`items, prod`offs, prod`pending, prod.buf
      ensures Apart()
      ensures Progress() == old((Once(filter, Now()).0, prod.pending + Once(filter, Now()).1))
    {
      Work();
      iteration := iteration + 1;
    }

    method FireAll(n: nat, ghost goal: (Saved<S, I>, seq<O>))
      requires Apart() && FiresTo(filter, Progress(), n, goal) && |goal.1| <= PRODUCER_BUFFER_SIZE
      modifies this`state, this`iteration, cons`offs, cons`items, prod`offs, prod`pending, prod.buf
      ensures Apart() && Progress() == goal
    {
      var y := 0;
      while y < n
        invariant y <= n && Apart() && FiresTo(filter, Progress(), n - y, goal)
      {
        FiresOnce(filter, Progress(), n - y, goal);
        FireOne();
        y := y + 1;
      }
      FiresNone(filter, Progress(), goal);
    }

    /** What a frame's firings start from, before its items: what was left over now or at the checkpoint. */
    ghost function Base(id: int): Saved<S, I>
      reads this, cons, prod
    {
      if -1 < id == currFrame then Value().cpoint else Value().now
    }

    /** Reads a frame into the consumer's buffers. */
    method ReadTracked(id: int, items: seq<I>, ghost c: Buffers.Counts)
      requires Valid() && id >= -1 && (id == -1 || id >= currFrame) && cons.Tracked(c)
      requires var kind := Buffers.KindOf(id, currFrame);
        Buffers.Roomy(c, kind, |items|) && (kind.Repeated? ==> c.Restores())
      modifies cons, cons.buf, cons.buf2
      ensures Apart() && cons.Tracked(Buffers.CountedFrame(c, Buffers.KindOf(id, currFrame), |items|))
      ensures cons.frameId == if id > currFrame then id else currFrame
      ensures cons.items == old(Base(id).left) + items
      ensures cons.backup == if id > currFrame then old(cons.items) else old(cons.backup)
    {
      assert ApartAt(0);
      ghost var was := cons.View();
      cons.ValidView();
      Buffers.CleanFits(was, c, Buffers.KindOf(id, currFrame), |items|);
      cons.ReadFrame(id, items);
      Buffers.ReadClean(was, c, Buffers.KindOf(id, currFrame), items, cons.View());
    }

    /** Reads a frame, and checkpoints or restores. */
    method Begin(id: int, items: seq<I>, ghost c: Buffers.Counts)
      requires Valid() && id >= -1 && (id == -1 || id >= currFrame) && cons.Tracked(c)
      requires var kind := Buffers.KindOf(id, currFrame);
        Buffers.Roomy(c, kind, |items|) && (kind.Repeated? ==> c.Restores())
      modifies this, cons, cons.buf, cons.buf2, prod`frameId
      ensures Valid() && cons.Tracked(Buffers.CountedFrame(c, Buffers.KindOf(id, old(currFrame)), |items|))
      ensures Now() == old(Base(id).(left := Base(id).left + items))
      ensures Value().cpoint == if id > old(currFrame) then old(Value().now) else old(Value().cpoint)
      ensures currFrame == if id > old(currFrame) then id else old(currFrame)
      ensures prod.frameId == old(prod.frameId) - if -1 < id == old(currFrame) then 1 else 0
    {
      ReadTracked(id, items, c);
      assert ApartAt(0);
      if id == -1 {
      } else if id > currFrame {
        currFrame := id;
        DoCpoint();
      } else {
        prod.frameId := prod.frameId - 1;
        RestoreCpoint();
      }
    }

    method FiringCount() returns (n: nat)
      requires cons.Valid()
      ensures n == Firings(|cons.items|, filter.popRate)
    {
      var size := cons.GetSize();
      FiringsQuotient(size, filter.popRate);
      n := size / filter.popRate;
    }

    /** Sends what a frame's firings made. */
    method Finish(id: int)
      requires Apart() && currFrame == cons.frameId
      modifies prod
      ensures Valid()
      ensures prod.frameId == old(prod.frameId) + if id == -1 then 0 else 1
      ensures prod.sent == old(prod.sent) + Sent(if id == -1 then -1 else old(prod.frameId), old(prod.pending))
    {
      assert ApartAt(0);
      if id == -1 {
        prod.FlushPseudo();
      } else {
        prod.Flush();
        prod.frameId := prod.frameId + 1;
      }
    }

    /** All firings what has been read allows; goal is what they come to. */
    method FireFrame(ghost c: Buffers.Counts, ghost goal: (Saved<S, I>, seq<O>))
      requires Apart() && cons.Tracked(c)
      requires FiresTo(filter, Progress(), Firings(|cons.items|, filter.popRate), goal)
               && |goal.1| <= PRODUCER_BUFFER_SIZE
      modifies this`state, this`iteration, cons`offs, cons`items, prod`offs, prod`pending, prod.buf
      ensures Apart() && Progress() == goal
      ensures c.Ok() && cons.Tracked(Fired(filter.popRate, c))
    {
      assert ApartAt(0);
      ghost var was := cons.View();
      var n := FiringCount();
      ghost var taken := Taken(n, filter.popRate);
      FiresLeft(filter, Progress(), n, goal);
      FireAll(n, goal);
      assert ApartAt(0);
      assert cons.items == goal.0.left;
      cons.PoppedView(was, taken);
      FiredClean(was, c, filter.popRate, taken, cons.View());
    }

    /** One turn of the run_sync loop, on a frame or a pseudo-frame. */
    method Turn(frame: Frame<I>, ghost c: Buffers.Counts)
      requires Valid() && cons.Tracked(c) && FrameFits(filter, Value(), c, frame)
      modifies this, cons, cons.buf, cons.buf2, prod, prod.buf
      ensures Valid()
      ensures cons.Tracked(Track(filter.popRate, c, Buffers.KindOf(frame.id, old(currFrame)), |frame.items|))
      ensures Value() == Step(Consumer(filter), old(Value()), frame).0
      ensures prod.sent == old(prod.sent) + Step(Consumer(filter), old(Value()), frame).1
    {
      assert ApartAt(0);
      StepFrom(filter, Value(), frame.id, frame.items);
      ConsumeFires(filter, Base(frame.id), frame.items);
      ReadFireSend(frame.id, frame.items, c, Base(frame.id), Consume(filter, Base(frame.id), frame.items));
    }

    /** The body of a turn, told by what its firings start from and what they give. */
    method ReadFireSend(id: int, items: seq<I>, ghost c: Buffers.Counts, ghost base: Saved<S, I>,
                        ghost done: (Saved<S, I>, seq<O>))
      requires Valid() && id >= -1 && (id == -1 || id >= currFrame) && cons.Tracked(c)
      requires var kind := Buffers.KindOf(id, currFrame);
        Buffers.Roomy(c, kind, |items|) && (kind.Repeated? ==> c.Restores())
      requires base == Base(id) && |done.1| <= PRODUCER_BUFFER_SIZE
      requires FiresTo(filter, (base.(left := base.left + items), []), Firings(|base.left + items|, filter.popRate),
                       done)
      modifies this, cons, cons.buf, cons.buf2, prod, prod.buf
      ensures Valid()
      ensures cons.Tracked(Track(filter.popRate, c, Buffers.KindOf(id, old(currFrame)), |items|))
      ensures Now() == done.0
      ensures Value().cpoint == if id > old(currFrame) then old(Value().now) else old(Value().cpoint)
      ensures currFrame == if id > old(currFrame) then id else old(currFrame)
      ensures prod.frameId == old(prod.frameId) + if id > old(currFrame) then 1 else 0
      ensures prod.sent == old(prod.sent) + Sent(if id == -1 then -1 else prod.frameId - 1, done.1)
    {
      assert ApartAt(0);
      Begin(id, items, c);
      FireFrame(Buffers.CountedFrame(c, Buffers.KindOf(id, old(currFrame)), |items|), done);
      Finish(id);
    }

    /**
     * The run_sync loop, until enough firings are done or the frames run out. read counts the frames
     * read. Pseudo-frames may come at any time, and repeated frames while the counts allow it.
     */
    method RunSync(frames: seq<Frame<I>>, num: nat, ghost c: Buffers.Counts) returns (read: nat)
      requires Valid() && cons.Tracked(c)
      requires AllFit(filter, Value(), c, frames)
      modifies this, cons, cons.buf, cons.buf2, prod, prod.buf
      ensures Valid() && read <= |frames|
      ensures Value() == Run(Consumer(filter), old(Value()), frames[..read]).0
      ensures prod.sent == old(prod.sent) + Run(Consumer(filter), old(Value()), frames[..read]).1
      ensures iteration >= num || read == |frames|
      ensures NeedsAll(Consumer(filter), old(Value()), frames, read, num)
    {
      read := 0;
      PrefixFits(filter, Value(), c, frames, 0);
      ghost var v, turn := Value(), Consumer(filter);
      while iteration < num && read < |frames|
        invariant Valid() && read <= |frames| && AllFit(filter, v, c, frames[..read])
        invariant cons.Tracked(TrackAll(filter, v, c, frames[..read]))
        invariant Value() == Run(turn, v, frames[..read]).0
        invariant prod.sent == old(prod.sent) + Run(turn, v, frames[..read]).1
        invariant NeedsAll(turn, v, frames, read, num)
        decreases |frames| - read
      {
        NeedsOneMore(turn, v, frames, read, num);
        ghost var before := Run(turn, v, frames[..read]);
        RunSnoc(turn, v, frames, read);
        ConcatAssociates(old(prod.sent), before.1, Step(turn, before.0, frames[read]).1);
        NextFits(filter, v, c, frames, read);
        Turn(frames[read], TrackAll(filter, v, c, frames[..read]));
        read := read + 1;
      }
    }
  }
}
