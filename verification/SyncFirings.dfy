/**
 * What a node with any number of inputs and outputs computes: over the stream that has come to each input,
 * a window of each after the other, one state of the filter after the other, and everything each firing
 * makes for each output.
 */
module SyncFirings {
  import opened Firings
  import opened Networks
  import opened Rollback
  import opened Seqs
  import opened SyncNodes
  import Nodes = StreamNodes

  // ---- Windows of every input ----

  /** Every stream has items for n firings. */
  ghost predicate Reach<T>(rates: seq<Nodes.Rate>, streams: seq<seq<T>>, n: nat) {
    |streams| == |rates| && forall i | 0 <= i < |rates| :: 0 <= rates[i] * n <= |streams[i]|
  }

  /** The n-th window of every stream. */
  ghost function WindowsAt<T>(rates: seq<Nodes.Rate>, streams: seq<seq<T>>, n: nat): (r: seq<seq<T>>)
    requires Reach(rates, streams, n + 1)
    ensures |r| == |rates| && forall i | 0 <= i < |rates| :: r[i] == Window(streams[i], rates[i], n)
  {
    seq(|rates|, i requires 0 <= i < |rates| => Window(streams[i], rates[i], n))
  }

  /** What follows the first n windows. */
  ghost function Beyond<T>(rates: seq<Nodes.Rate>, streams: seq<seq<T>>, n: nat): (r: seq<seq<T>>)
    requires Reach(rates, streams, n)
    ensures |r| == |rates| && forall i | 0 <= i < |rates| :: r[i] == streams[i][rates[i] * n..]
  {
    seq(|rates|, i requires 0 <= i < |rates| => streams[i][rates[i] * n..])
  }

  lemma NextWindow<T>(stream: seq<T>, rate: nat, n: nat)
    requires 0 <= rate * n <= |stream| && rate <= |stream[rate * n..]|
    ensures 0 <= rate * (n + 1) <= |stream| && stream[rate * n..][..rate] == Window(stream, rate, n)
    ensures stream[rate * n..][rate..] == stream[rate * (n + 1)..]
  {
    Products(rate, n);
    RestTwice(stream, rate * n, rate);
  }

  lemma NextWindows<T>(rates: seq<Nodes.Rate>, streams: seq<seq<T>>, n: nat)
    requires Reach(rates, streams, n) && Allow(rates, Beyond(rates, streams, n), 1)
    ensures Reach(rates, streams, n + 1)
    ensures Windows(rates, Beyond(rates, streams, n)) == WindowsAt(rates, streams, n)
    ensures Rests(rates, Beyond(rates, streams, n)) == Beyond(rates, streams, n + 1)
  {
    var left := Beyond(rates, streams, n);
    forall i | 0 <= i < |rates|
      ensures 0 <= rates[i] * (n + 1) <= |streams[i]|
      ensures left[i][..rates[i]] == Window(streams[i], rates[i], n)
      ensures left[i][rates[i]..] == streams[i][rates[i] * (n + 1)..]
    {
      assert Nodes.Taken(1, rates[i]) == rates[i];
      NextWindow(streams[i], rates[i], n);
    }
  }

  lemma ReachMore<T>(rates: seq<Nodes.Rate>, streams: seq<seq<T>>, items: seq<seq<T>>, n: nat)
    requires Reach(rates, streams, n) && |items| == |streams|
    ensures Reach(rates, Joined(streams, items), n)
    ensures Beyond(rates, Joined(streams, items), n) == Joined(Beyond(rates, streams, n), items)
  {
    var more, rest := Joined(streams, items), Joined(Beyond(rates, streams, n), items);
    forall i | 0 <= i < |rates|
      ensures 0 <= rates[i] * n <= |more[i]| && more[i][rates[i] * n..] == rest[i]
    {
      StreamGrows([], streams[i], items[i], rates[i] * n);
      assert [] + streams[i] == streams[i] && [] + (streams[i] + items[i]) == more[i];
    }
  }

  lemma WindowsMore<T>(rates: seq<Nodes.Rate>, streams: seq<seq<T>>, items: seq<seq<T>>, n: nat)
    requires Reach(rates, streams, n + 1) && |items| == |streams|
    ensures Reach(rates, Joined(streams, items), n + 1)
    ensures WindowsAt(rates, Joined(streams, items), n) == WindowsAt(rates, streams, n)
  {
    var more := Joined(streams, items);
    forall i | 0 <= i < |rates| ensures Window(more[i], rates[i], n) == Window(streams[i], rates[i], n) {
      Products(rates[i], n);
    }
  }

  // ---- The firings ----

  /** Firing j takes the filter from state j to state j + 1 and makes outs[j] of the j-th window of every stream. */
  ghost predicate FiresMany<S, T>(f: Filters<S, T>, streams: seq<seq<T>>, states: seq<S>, outs: seq<seq<seq<T>>>) {
    && |states| == |outs| + 1 && Reach(f.rates, streams, |outs|)
    && forall j: nat | j < |outs| :: FiresManyAt(f, streams, states, outs, j)
  }

  ghost predicate FiresManyAt<S, T>(f: Filters<S, T>, streams: seq<seq<T>>, states: seq<S>, outs: seq<seq<seq<T>>>,
                                    j: nat)
    requires |states| == |outs| + 1 && j < |outs|
  {
    && Reach(f.rates, streams, j + 1)
    && (states[j + 1], outs[j]) == f.work(states[j], WindowsAt(f.rates, streams, j))
  }

  /** What all firings have made for output k. */
  function MadeFor<T>(outs: seq<seq<seq<T>>>, k: nat): seq<T> {
    if |outs| == 0 then [] else MadeFor(outs[..|outs| - 1], k) + Port(outs[|outs| - 1], k)
  }

  /** From s, over these streams, the firings have led to end, with the rest of each stream left over. */
  ghost predicate WentTo<S, T>(f: Filters<S, T>, s: Kept<S, T>, streams: seq<seq<T>>, end: Kept<S, T>, states: seq<S>,
                               outs: seq<seq<seq<T>>>)
  {
    && FiresMany(f, streams, states, outs) && states[0] == s.state
    && end == Kept(states[|outs|], s.iteration + |outs|, Beyond(f.rates, streams, |outs|))
  }

  lemma WentOn<S, T>(f: Filters<S, T>, s: Kept<S, T>, streams: seq<seq<T>>, end: Kept<S, T>, states: seq<S>,
                     outs: seq<seq<seq<T>>>)
    requires WentTo(f, s, streams, end, states, outs) && Allow(f.rates, end.left, 1)
    ensures var (next, out) := f.work(end.state, Windows(f.rates, end.left));
      WentTo(f, s, streams, Kept(next, end.iteration + 1, Rests(f.rates, end.left)), states + [next], outs + [out])
  {
    var n := |outs|;
    NextWindows(f.rates, streams, n);
    var (next, out) := f.work(end.state, Windows(f.rates, end.left));
    var states', outs' := states + [next], outs + [out];
    forall j: nat | j < |outs'| ensures FiresManyAt(f, streams, states', outs', j) {
      if j < n { assert FiresManyAt(f, streams, states, outs, j); }
    }
  }

  lemma WentMore<S, T>(f: Filters<S, T>, s: Kept<S, T>, streams: seq<seq<T>>, end: Kept<S, T>, states: seq<S>,
                       outs: seq<seq<seq<T>>>, items: seq<seq<T>>)
    requires WentTo(f, s, streams, end, states, outs) && |items| == |streams|
    ensures WentTo(f, s, Joined(streams, items), end.(left := Joined(end.left, items)), states, outs)
  {
    var more := Joined(streams, items);
    ReachMore(f.rates, streams, items, |outs|);
    forall j: nat | j < |outs| ensures FiresManyAt(f, more, states, outs, j) {
      assert FiresManyAt(f, streams, states, outs, j);
      WindowsMore(f.rates, streams, items, j);
    }
  }

  lemma WentNowhere<S, T>(f: Filters<S, T>, s: Kept<S, T>)
    requires |s.left| == |f.rates|
    ensures WentTo(f, s, s.left, s, [s.state], [])
  {
    assert Beyond(f.rates, s.left, 0) == s.left;
  }

  /** What was sent before and what is made now are what the firings have made, for each output. */
  ghost predicate MadeBy<T>(before: seq<seq<T>>, made: seq<seq<T>>, outs: seq<seq<seq<T>>>) {
    |before| == |made| && forall k: nat | k < |made| :: before[k] + made[k] == MadeFor(outs, k)
  }

  lemma MadeOn<T>(before: seq<seq<T>>, made: seq<seq<T>>, outs: seq<seq<seq<T>>>, out: seq<seq<T>>)
    requires MadeBy(before, made, outs)
    ensures MadeBy(before, Added(|made|, made, out), outs + [out])
  {
    var outs' := outs + [out];
    assert outs'[..|outs|] == outs;
    forall k: nat | k < |made| ensures before[k] + Added(|made|, made, out)[k] == MadeFor(outs', k) {
      ConcatAssociates(before[k], made[k], Port(out, k));
    }
  }

  /** n firings more, as FireMany does them. */
  lemma {:induction false} ManyWent<S, T>(f: Filters<S, T>, s: Kept<S, T>, streams: seq<seq<T>>, mid: Kept<S, T>,
                                          states: seq<S>, outs: seq<seq<seq<T>>>, before: seq<seq<T>>,
                                          made: seq<seq<T>>, n: nat)
    returns (states': seq<S>, outs': seq<seq<seq<T>>>)
    requires WentTo(f, s, streams, mid, states, outs) && MadeBy(before, made, outs)
    requires Allow(f.rates, mid.left, n) && |made| == f.outputs
    ensures var (end, all) := FireMany(f, mid, made, n);
      WentTo(f, s, streams, end, states', outs') && MadeBy(before, all, outs') && |outs'| == |outs| + n
    decreases n
  {
    if n == 0 {
      states', outs' := states, outs;
    } else {
      AllowNext(f.rates, mid.left, n);
      var (next, out) := f.work(mid.state, Windows(f.rates, mid.left));
      var (after, more) := FireOnce(f, mid, made);
      WentOn(f, s, streams, mid, states, outs);
      MadeOn(before, made, outs, out);
      states', outs' := ManyWent(f, s, streams, after, states + [next], outs + [out], before, more, n - 1);
    }
  }

  // ---- The firings of a run ----

  /** The items that have come to input i. */
  function InputItems<T>(frames: seq<Frame<seq<T>>>, i: nat): seq<T> {
    if |frames| == 0 then []
    else InputItems(frames[..|frames| - 1], i) + Port(frames[|frames| - 1].items, i)
  }

  /** The stream of each input: what was left over and what has come. */
  function Streams<T>(left: seq<seq<T>>, frames: seq<Frame<seq<T>>>): (r: seq<seq<T>>)
    ensures |r| == |left| && forall i | 0 <= i < |left| :: r[i] == left[i] + InputItems(frames, i)
  {
    seq(|left|, i requires 0 <= i < |left| => left[i] + InputItems(frames, i))
  }

  lemma StreamsSnoc<T>(left: seq<seq<T>>, frames: seq<Frame<seq<T>>>, k: nat)
    requires k < |frames| && |frames[k].items| == |left|
    ensures Streams(left, frames[..k + 1]) == Joined(Streams(left, frames[..k]), frames[k].items)
  {
    var more, joined := Streams(left, frames[..k + 1]), Joined(Streams(left, frames[..k]), frames[k].items);
    assert frames[..k + 1][..k] == frames[..k];
    forall i | 0 <= i < |left| ensures more[i] == joined[i] {
      ConcatAssociates(left[i], InputItems(frames[..k], i), frames[k].items[i]);
    }
  }

  /** The items each output has sent. */
  ghost function SentItems<S, T>(f: Filters<S, T>, v: Node<Kept<S, T>>, frames: seq<Frame<seq<T>>>): (r: seq<seq<T>>)
    ensures |r| == f.outputs && forall k | 0 <= k < f.outputs :: r[k] == Items(Run(Only(f, k), v, frames).1)
  {
    seq(f.outputs, k requires 0 <= k => Items(Run(Only(f, k), v, frames).1))
  }

  /** All outputs see the node go the same way. */
  lemma {:induction false} SameNode<S, T>(f: Filters<S, T>, v: Node<Kept<S, T>>, frames: seq<Frame<seq<T>>>, k: nat)
    ensures Run(Only(f, k), v, frames).0 == Run(Only(f, 0), v, frames).0
    decreases |frames|
  {
    if |frames| > 0 {
      var next := Step(Only(f, 0), v, frames[0]).0;
      assert Step(Only(f, k), v, frames[0]).0 == next;
      SameNode(f, next, frames[1..], k);
    }
  }

  /** One frame more that repeats none. */
  lemma SentSnoc<S, T>(f: Filters<S, T>, v: Node<Kept<S, T>>, frames: seq<Frame<seq<T>>>, n: nat)
    requires n < |frames|
    requires frames[n].id == -1 || frames[n].id > Run(Only(f, 0), v, frames[..n]).0.currFrame
    ensures var mid := Run(Only(f, 0), v, frames[..n]).0; var (after, out) := Consume(f, mid.now, frames[n].items);
      && Run(Only(f, 0), v, frames[..n + 1]).0.now == after
      && forall k: nat | k < f.outputs ::
           SentItems(f, v, frames[..n + 1])[k] == SentItems(f, v, frames[..n])[k] + Port(out, k)
  {
    var mid := Run(Only(f, 0), v, frames[..n]).0;
    var out := Consume(f, mid.now, frames[n].items).1;
    RunSnoc(Only(f, 0), v, frames, n);
    forall k: nat | k < f.outputs
      ensures SentItems(f, v, frames[..n + 1])[k] == SentItems(f, v, frames[..n])[k] + Port(out, k)
    {
      SameNode(f, v, frames[..n], k);
      RunSnoc(Only(f, k), v, frames, n);
      ItemsSent(Run(Only(f, k), v, frames[..n]).1, if frames[n].id == -1 then -1 else mid.outFrame, Port(out, k));
    }
  }

  /** No input has items left for a firing. */
  ghost predicate Spent<T>(rates: seq<Nodes.Rate>, left: seq<seq<T>>) {
    |left| == |rates| && forall i | 0 <= i < |rates| :: |left[i]| < rates[i]
  }

  lemma SpentAfter<T>(rates: seq<Nodes.Rate>, streams: seq<seq<T>>, m: nat, n: nat)
    requires Reach(rates, streams, m) && Reach(rates, streams, m + n) && Agree(rates, Beyond(rates, streams, m), n)
    ensures Spent(rates, Beyond(rates, streams, m + n))
  {
    var before, after := Beyond(rates, streams, m), Beyond(rates, streams, m + n);
    forall i | 0 <= i < |rates| ensures |after[i]| < rates[i] {
      assert Nodes.Firings(|before[i]|, rates[i]) == n;
      Nodes.TakenProduct(n, rates[i]);
      ProductsAdd(rates[i], m, n);
    }
  }

  /** The firings over these streams lead to end, and the outputs have everything they have made. */
  ghost predicate RanTo<S, T>(f: Filters<S, T>, s: Kept<S, T>, streams: seq<seq<T>>, end: Kept<S, T>,
                              sent: seq<seq<T>>, states: seq<S>, outs: seq<seq<seq<T>>>)
  {
    && WentTo(f, s, streams, end, states, outs)
    && |sent| == f.outputs && forall k: nat | k < |sent| :: sent[k] == MadeFor(outs, k)
  }

  lemma RanNowhere<S, T>(f: Filters<S, T>, s: Kept<S, T>)
    requires |s.left| == |f.rates|
    ensures RanTo(f, s, s.left, s, Nothing(f.outputs), [s.state], [])
  {
    WentNowhere(f, s);
  }

  /** The firings of one frame more. */
  lemma RanOn<S, T>(f: Filters<S, T>, s: Kept<S, T>, streams: seq<seq<T>>, mid: Kept<S, T>, sent: seq<seq<T>>,
                    states: seq<S>, outs: seq<seq<seq<T>>>, items: seq<seq<T>>, sent': seq<seq<T>>)
    returns (states': seq<S>, outs': seq<seq<seq<T>>>)
    requires RanTo(f, s, streams, mid, sent, states, outs) && CanFire(f, mid, items)
    requires |sent'| == f.outputs
    requires forall k: nat | k < f.outputs :: sent'[k] == sent[k] + Port(Consume(f, mid, items).1, k)
    ensures |items| == |streams|
    ensures RanTo(f, s, Joined(streams, items), Consume(f, mid, items).0, sent', states', outs')
    ensures Spent(f.rates, Consume(f, mid, items).0.left)
  {
    var n, more := Nodes.Firings(|mid.left[0] + items[0]|, f.rates[0]), Joined(streams, items);
    var all := mid.(left := Joined(mid.left, items));
    AgreeAllow(f.rates, all.left, n);
    WentMore(f, s, streams, mid, states, outs, items);
    var none := Nothing<T>(f.outputs);
    assert MadeBy(sent, none, outs);
    states', outs' := ManyWent(f, s, more, all, states, outs, sent, none, n);
    SpentAfter(f.rates, more, |outs|, n);
  }

  /** When the node can fire, as a test of where its firings start and what has come. */
  ghost function Able<S, T>(f: Filters<S, T>): (Kept<S, T>, seq<seq<T>>) -> bool {
    (s: Kept<S, T>, items: seq<seq<T>>) => CanFire(f, s, items)
  }

  /** Where no frame repeats one before, ids rise from what the node is at. */
  lemma {:induction false} OnwardIds<S, I, O>(f: Turn<S, I, O>, v: Node<S>, frames: seq<Frame<I>>, j: nat)
    requires v.currFrame >= -1 && Onward(frames, v.currFrame) && j <= |frames|
    ensures var end := Run(f, v, frames[..j]).0;
      end.currFrame >= -1 && forall i | j <= i < |frames| && frames[i].id != -1 :: frames[i].id > end.currFrame
  {
    if j > 0 {
      OnwardIds(f, v, frames, j - 1);
      RunSnoc(f, v, frames, j - 1);
    }
  }

  lemma OnwardNext<S, T>(f: Filters<S, T>, v: Node<Kept<S, T>>, frames: seq<Frame<seq<T>>>, n: nat, states: seq<S>,
                         outs: seq<seq<seq<T>>>)
    returns (states': seq<S>, outs': seq<seq<seq<T>>>)
    requires v.currFrame >= -1 && Onward(frames, v.currFrame) && n < |frames|
    requires Straight(Only(f, 0), v, frames, Able(f))
    requires var mid := Run(Only(f, 0), v, frames[..n]).0.now;
      RanTo(f, v.now, Streams(v.now.left, frames[..n]), mid, SentItems(f, v, frames[..n]), states, outs)
    ensures var end := Run(Only(f, 0), v, frames[..n + 1]).0.now;
      && RanTo(f, v.now, Streams(v.now.left, frames[..n + 1]), end, SentItems(f, v, frames[..n + 1]), states', outs')
      && Spent(f.rates, end.left)
  {
    OnwardIds(Only(f, 0), v, frames, n);
    assert StraightAt(Only(f, 0), v, frames, Able(f), n);
    SentSnoc(f, v, frames, n);
    var mid := Run(Only(f, 0), v, frames[..n]).0.now;
    states', outs' := RanOn(f, v.now, Streams(v.now.left, frames[..n]), mid, SentItems(f, v, frames[..n]),
                            states, outs, frames[n].items, SentItems(f, v, frames[..n + 1]));
    StreamsSnoc(v.now.left, frames, n);
  }

  lemma NoFrames<S, T>(f: Filters<S, T>, v: Node<Kept<S, T>>)
    ensures Streams(v.now.left, []) == v.now.left && SentItems(f, v, []) == Nothing(f.outputs)
  {
    var streams := Streams(v.now.left, []);
    assert forall i | 0 <= i < |streams| :: streams[i] == v.now.left[i] + [] == v.now.left[i];
    forall k: nat | k < f.outputs ensures SentItems(f, v, [])[k] == [] { assert Run(Only(f, k), v, []).1 == []; }
  }

  /** As long as no frame repeats one before, a node fires on over the streams of all their items. */
  lemma {:induction false} OnwardMany<S, T>(f: Filters<S, T>, v: Node<Kept<S, T>>, frames: seq<Frame<seq<T>>>, j: nat)
    returns (states: seq<S>, outs: seq<seq<seq<T>>>)
    requires v.currFrame >= -1 && Onward(frames, v.currFrame) && j <= |frames| && |v.now.left| == |f.rates|
    requires Straight(Only(f, 0), v, frames, Able(f))
    ensures var end := Run(Only(f, 0), v, frames[..j]).0.now;
      && RanTo(f, v.now, Streams(v.now.left, frames[..j]), end, SentItems(f, v, frames[..j]), states, outs)
      && (j > 0 ==> Spent(f.rates, end.left))
  {
    if j == 0 {
      states, outs := [v.now.state], [];
      RanNowhere(f, v.now);
      NoFrames(f, v);
      assert frames[..0] == [];
    } else {
      states, outs := OnwardMany(f, v, frames, j - 1);
      states, outs := OnwardNext(f, v, frames, j - 1, states, outs);
    }
  }

  /** Where no assert fails, the node can fire on each bundle where its firings start. */
  lemma OkHeld<S, T>(f: Filters<S, T>, v: Node<Kept<S, T>>, rows: seq<seq<Frame<T>>>, n: nat)
    requires AllOk(f, v, rows, n)
    ensures Held(Only(f, 0), v, Bundles(rows)[..n], Able(f))
  {
    var frames := Bundles(rows)[..n];
    forall j: nat | j < n ensures HeldAt(Only(f, 0), v, frames, Able(f), j) {
      assert OkAt(f, v, rows, j);
      assert frames[..j] == Bundles(rows)[..j];
    }
  }

  /** If output k is not left stale, the last versions of what it has sent have everything made for it. */
  ghost predicate SendsAll<S, T>(f: Filters<S, T>, v: Node<Kept<S, T>>, rows: seq<seq<Frame<T>>>, n: nat,
                                 outs: seq<seq<seq<T>>>, k: nat)
    requires n <= |rows| && forall row | row in rows :: |row| > 0
  {
    NeverStale(Only(f, k), v, Grouped(Bundles(rows)[..n])) ==>
      Items(LastOnly(RowsRun(f, v, rows, n, k).1)) == MadeFor(outs, k)
  }

  /**
   * As long as no assert fails, whatever rows, versions of rows and pseudo-frames come: the node has fired,
   * from its first state, over what each input had left over and the items of the frames in force, as often
   * as that allows. Without pseudo-frames, the last versions of what an output has sent that is not left
   * stale have everything these firings have made for it.
   */
  lemma SyncFires<S, T>(f: Filters<S, T>, v: Node<Kept<S, T>>, rows: seq<seq<Frame<T>>>, n: nat)
    returns (states: seq<S>, outs: seq<seq<seq<T>>>)
    requires AllOk(f, v, rows, n) && v.currFrame >= -1 && |v.now.left| == |f.rates|
    requires Ordered(Bundles(rows)[..n], v.currFrame)
    ensures var frames := Bundles(rows)[..n]; var force := InForce(frames).0; var end := RowsRun(f, v, rows, n, 0).0;
      && WentTo(f, v.now, Streams(v.now.left, force), end.now, states, outs)
      && (|force| > 0 ==> Spent(f.rates, end.now.left))
      && (Disciplined(frames, v.currFrame) ==> forall k: nat | k < f.outputs :: SendsAll(f, v, rows, n, outs, k))
  {
    var frames := Bundles(rows)[..n];
    var force := InForce(frames).0;
    OkHeld(f, v, rows, n);
    assert frames[..n] == frames && force[..|force|] == force;
    ForcedHeld(Only(f, 0), v, frames, n, Able(f));
    ForcedNow(Only(f, 0), v, frames);
    states, outs := OnwardMany(f, v, force, |force|);
    if Disciplined(frames, v.currFrame) {
      forall k: nat | k < f.outputs ensures SendsAll(f, v, rows, n, outs, k) {
        SendsInForce(Only(f, k), v, frames);
        assert SentItems(f, v, force)[k] == MadeFor(outs, k);
      }
    }
  }
}
