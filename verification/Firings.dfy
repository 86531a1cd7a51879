/**
 * What a node computes: over the stream of items that has come to it, window after window, one state of
 * the filter after the other, and everything each firing makes.
 */
module Firings {
  import opened Networks
  import opened Rollback
  import opened Seqs
  import opened StreamNodes

  // ---- Windows ----

  /** The i-th window of a stream. */
  function Window<T>(stream: seq<T>, rate: nat, i: nat): (w: seq<T>)
    requires rate * (i + 1) <= |stream|
    ensures |w| == rate
  {
    Products(rate, i);
    stream[rate * i..rate * (i + 1)]
  }

  lemma Products(rate: nat, i: nat)
    ensures rate * (i + 1) == rate * i + rate && rate * i >= 0
  {
  }

  lemma ProductsAdd(rate: nat, n: nat, i: nat)
    ensures rate * (n + i) == rate * n + rate * i && rate * n >= 0 && rate * i >= 0
  {
  }

  lemma WindowLater<T>(stream: seq<T>, rate: nat, n: nat, i: nat)
    requires rate * (n + i + 1) <= |stream|
    ensures 0 <= rate * n <= |stream| && rate * (i + 1) <= |stream[rate * n..]|
    ensures Window(stream, rate, n + i) == Window(stream[rate * n..], rate, i)
  {
    ProductsAdd(rate, n, i);
    ProductsAdd(rate, n, i + 1);
  }

  // ---- The firings of a filter with one input and one output ----

  /** Firing i takes the filter from state i to state i + 1 and makes output i of the i-th window of the stream. */
  ghost predicate Fires<S, I, O>(f: Filter<S, I, O>, stream: seq<I>, states: seq<S>, outs: seq<seq<O>>) {
    && |states| == |outs| + 1 && f.popRate * |outs| <= |stream|
    && forall i: nat | i < |outs| :: FiresAt(f, stream, states, outs, i)
  }

  ghost predicate FiresAt<S, I, O>(f: Filter<S, I, O>, stream: seq<I>, states: seq<S>, outs: seq<seq<O>>, i: nat)
    requires |states| == |outs| + 1 && i < |outs|
  {
    f.popRate * (i + 1) <= |stream| && (states[i + 1], outs[i]) == f.work(states[i], Window(stream, f.popRate, i))
  }

  lemma WithinStream(rate: nat, i: nat, n: nat)
    requires i < n
    ensures rate * (i + 1) <= rate * n
  {
    ProductsAdd(rate, i + 1, n - i - 1);
  }

  /** Firings over the beginning of a stream, followed by firings over the rest. */
  lemma FiresJoin<S, I, O>(f: Filter<S, I, O>, stream: seq<I>, states: seq<S>, outs: seq<seq<O>>,
                           all: seq<I>, states2: seq<S>, outs2: seq<seq<O>>)
    requires Fires(f, stream, states, outs) && stream <= all
    requires f.popRate * |outs| <= |all| && Fires(f, all[f.popRate * |outs|..], states2, outs2)
    requires states2[0] == states[|outs|]
    ensures Fires(f, all, states + states2[1..], outs + outs2)
  {
    var n, rate, states', outs' := |outs|, f.popRate, states + states2[1..], outs + outs2;
    ProductsAdd(rate, n, |outs2|);
    forall i: nat | i < |outs'| ensures FiresAt(f, all, states', outs', i) {
      if i < n {
        WithinStream(rate, i, n);
        assert FiresAt(f, stream, states, outs, i);
        Products(rate, i);
        assert Window(all, rate, i) == Window(stream, rate, i);
      } else {
        var j := i - n;
        assert FiresAt(f, all[rate * n..], states2, outs2, j);
        ProductsAdd(rate, n, j + 1);
        WindowLater(all, rate, n, j);
      }
    }
  }

  lemma NoFiring<S, I, O>(f: Filter<S, I, O>, stream: seq<I>, s: S)
    ensures Fires(f, stream, [s], [])
  {
  }

  /** One firing over the beginning of a stream. */
  lemma OneFiring<S, I, O>(f: Filter<S, I, O>, stream: seq<I>, s: S)
    requires f.popRate <= |stream|
    ensures var (next, out) := f.work(s, stream[..f.popRate]); Fires(f, stream, [s, next], [out])
  {
    var (next, out) := f.work(s, stream[..f.popRate]);
    assert Window(stream, f.popRate, 0) == stream[..f.popRate];
    assert FiresAt(f, stream, [s, next], [out], 0);
  }

  lemma FlattenOne<T>(first: seq<T>, rest: seq<seq<T>>)
    ensures Flatten([first] + rest) == first + Flatten(rest)
  {
    FlattenConcat([first], rest);
    assert Flatten([first]) == [] + first == first;
  }

  lemma RestTwice<T>(s: seq<T>, a: nat, b: nat)
    requires a + b <= |s|
    ensures s[a..][b..] == s[a + b..]
  {
  }

  /** n firings from s, with made made so far, are these. */
  ghost predicate FiredBy<S, I, O>(f: Filter<S, I, O>, s: Saved<S, I>, made: seq<O>, n: nat, states: seq<S>,
                                   outs: seq<seq<O>>)
  {
    && Taken(n, f.popRate) <= |s.left| && |outs| == n && |states| == n + 1 && states[0] == s.state
    && Fires(f, s.left, states, outs)
    && Fire(f, s, made, n) == (Saved(states[n], s.iteration + n, s.left[f.popRate * n..]), made + Flatten(outs))
  }

  lemma FiresFirst<S, I, O>(f: Filter<S, I, O>, s: Saved<S, I>, next: S, out: seq<O>, states: seq<S>, outs: seq<seq<O>>)
    requires f.popRate <= |s.left| && (next, out) == f.work(s.state, s.left[..f.popRate])
    requires Fires(f, s.left[f.popRate..], states, outs) && states[0] == next
    ensures Fires(f, s.left, [s.state] + states, [out] + outs)
  {
    OneFiring(f, s.left, s.state);
    FiresJoin(f, s.left, [s.state, next], [out], s.left, states, outs);
    assert [s.state, next] + states[1..] == [s.state] + states;
  }

  lemma FiredNext<S, I, O>(f: Filter<S, I, O>, s: Saved<S, I>, made: seq<O>, n: nat, after: Saved<S, I>, out: seq<O>,
                           states: seq<S>, outs: seq<seq<O>>)
    requires n > 0 && Taken(n, f.popRate) <= |s.left| && (after, out) == Once(f, s)
    requires FiredBy(f, after, made + out, n - 1, states, outs)
    ensures FiredBy(f, s, made, n, [s.state] + states, [out] + outs)
  {
    FiresFirst(f, s, after.state, out, states, outs);
    FlattenOne(out, outs);
    ConcatAssociates(made, out, Flatten(outs));
    ProductsAdd(f.popRate, 1, n - 1);
    RestTwice(s.left, f.popRate, f.popRate * (n - 1));
  }

  lemma {:induction false} FireFires<S, I, O>(f: Filter<S, I, O>, s: Saved<S, I>, made: seq<O>, n: nat)
    returns (states: seq<S>, outs: seq<seq<O>>)
    requires Taken(n, f.popRate) <= |s.left|
    ensures FiredBy(f, s, made, n, states, outs)
    decreases n
  {
    if n == 0 {
      states, outs := [s.state], [];
      NoFiring(f, s.left, s.state);
      assert s.left[f.popRate * 0..] == s.left && made + [] == made;
    } else {
      var (after, out) := Once(f, s);
      states, outs := FireFires(f, after, made + out, n - 1);
      FiredNext(f, s, made, n, after, out, states, outs);
      states, outs := [s.state] + states, [out] + outs;
    }
  }

  // ---- The firings of a run ----

  /** The items of all frames. */
  function Items<T>(frames: seq<Frame<T>>): seq<T> {
    if |frames| == 0 then [] else Items(frames[..|frames| - 1]) + frames[|frames| - 1].items
  }

  lemma ItemsSnoc<T>(frames: seq<Frame<T>>, k: nat)
    requires k < |frames|
    ensures Items(frames[..k + 1]) == Items(frames[..k]) + frames[k].items
  {
    assert frames[..k + 1][..k] == frames[..k];
  }

  lemma ItemsSent<T>(frames: seq<Frame<T>>, id: int, out: seq<T>)
    ensures Items(frames + Sent(id, out)) == Items(frames) + out
  {
    if |out| > 0 {
      assert (frames + Sent(id, out))[..|frames|] == frames;
    } else {
      assert frames + Sent(id, out) == frames && Items(frames) + out == Items(frames);
    }
  }

  /** No frame repeats one before: ids rise, except for those of pseudo-frames. */
  ghost predicate Onward<T>(frames: seq<Frame<T>>, floor: int) {
    && (forall i | 0 <= i < |frames| && frames[i].id != -1 :: frames[i].id > floor)
    && (forall i, j | 0 <= i < j < |frames| && frames[i].id != -1 && frames[j].id != -1 :: frames[i].id < frames[j].id)
  }

  /** From s, over what it had left and these items, firings have led to end, with the rest left over. */
  ghost predicate FiredTo<S, I, O>(f: Filter<S, I, O>, s: Saved<S, I>, items: seq<I>, end: Saved<S, I>, states: seq<S>,
                                   outs: seq<seq<O>>)
  {
    var stream := s.left + items;
    && Fires(f, stream, states, outs) && states[0] == s.state
    && end == Saved(states[|outs|], s.iteration + |outs|, stream[f.popRate * |outs|..])
  }

  /** The same for a run, which sends everything the firings have made. */
  ghost predicate RunsBy<S, I, O>(f: Filter<S, I, O>, s: Saved<S, I>, items: seq<I>, end: Saved<S, I>,
                                  sent: seq<Frame<O>>, states: seq<S>, outs: seq<seq<O>>)
  {
    FiredTo(f, s, items, end, states, outs) && Items(sent) == Flatten(outs)
  }

  lemma RunsNot<S, I, O>(f: Filter<S, I, O>, s: Saved<S, I>)
    ensures RunsBy(f, s, [], s, [], [s.state], [])
  {
    NoFiring(f, s.left + [], s.state);
    assert (s.left + [])[f.popRate * 0..] == s.left;
  }

  lemma StreamGrows<T>(left: seq<T>, items: seq<T>, more: seq<T>, k: nat)
    requires k <= |left + items|
    ensures left + (items + more) == (left + items) + more && (left + (items + more))[k..] == (left + items)[k..] + more
  {
  }

  lemma FiredJoin<S, I, O>(f: Filter<S, I, O>, s: Saved<S, I>, items: seq<I>, mid: Saved<S, I>, states: seq<S>,
                           outs: seq<seq<O>>, more: seq<I>, end: Saved<S, I>, states2: seq<S>, outs2: seq<seq<O>>)
    requires FiredTo(f, s, items, mid, states, outs) && FiredTo(f, mid, more, end, states2, outs2)
    ensures FiredTo(f, s, items + more, end, states + states2[1..], outs + outs2)
  {
    var stream, longer, k, n := s.left + items, s.left + (items + more), |outs|, |outs2|;
    StreamGrows(s.left, items, more, f.popRate * k);
    FiresJoin(f, stream, states, outs, longer, states2, outs2);
    ProductsAdd(f.popRate, k, n);
    RestTwice(longer, f.popRate * k, f.popRate * n);
    assert (states + states2[1..])[k + n] == states2[n];
  }

  lemma FiredItems<S, I, O>(f: Filter<S, I, O>, mid: Saved<S, I>, more: seq<I>, n: nat, states: seq<S>,
                            outs: seq<seq<O>>)
    requires FiredBy(f, mid.(left := mid.left + more), [], n, states, outs)
    ensures var (end, out) := Fire(f, mid.(left := mid.left + more), [], n);
      FiredTo(f, mid, more, end, states, outs) && out == Flatten(outs)
  {
    assert [] + Flatten(outs) == Flatten(outs);
  }

  lemma RunsJoin<S, I, O>(f: Filter<S, I, O>, s: Saved<S, I>, items: seq<I>, mid: Saved<S, I>, sent: seq<Frame<O>>,
                          states: seq<S>, outs: seq<seq<O>>, more: seq<I>, id: int, end: Saved<S, I>, out: seq<O>,
                          states2: seq<S>, outs2: seq<seq<O>>)
    requires RunsBy(f, s, items, mid, sent, states, outs)
    requires FiredTo(f, mid, more, end, states2, outs2) && out == Flatten(outs2)
    ensures RunsBy(f, s, items + more, end, sent + Sent(id, out), states + states2[1..], outs + outs2)
  {
    FiredJoin(f, s, items, mid, states, outs, more, end, states2, outs2);
    FlattenConcat(outs, outs2);
    ItemsSent(sent, id, out);
  }

  /** One frame more: its firings go on over the stream. */
  lemma RunsOn<S, I, O>(f: Filter<S, I, O>, s: Saved<S, I>, items: seq<I>, mid: Saved<S, I>, sent: seq<Frame<O>>,
                        states: seq<S>, outs: seq<seq<O>>, more: seq<I>, id: int)
    returns (states': seq<S>, outs': seq<seq<O>>)
    requires RunsBy(f, s, items, mid, sent, states, outs)
    ensures var (end, out) := Consume(f, mid, more);
      RunsBy(f, s, items + more, end, sent + Sent(id, out), states', outs')
  {
    var all, n := mid.(left := mid.left + more), Firings(|mid.left + more|, f.popRate);
    var (end, out) := Consume(f, mid, more);
    var states2, outs2 := FireFires(f, all, [], n);
    FiredItems(f, mid, more, n, states2, outs2);
    RunsJoin(f, s, items, mid, sent, states, outs, more, id, end, out, states2, outs2);
    states', outs' := states + states2[1..], outs + outs2;
  }

  /** As long as no frame repeats one before, a node fires on over the stream of all their items. */
  lemma {:induction false} OnwardFires<S, I, O>(f: Filter<S, I, O>, v: Node<Saved<S, I>>, frames: seq<Frame<I>>, k: nat)
    returns (states: seq<S>, outs: seq<seq<O>>)
    requires v.currFrame >= -1 && Onward(frames, v.currFrame) && k <= |frames|
    ensures var (end, sent) := Run(Consumer(f), v, frames[..k]);
      && RunsBy(f, v.now, Items(frames[..k]), end.now, sent, states, outs)
      && end.currFrame >= -1 && (k > 0 ==> |end.now.left| < f.popRate)
      && forall j | k <= j < |frames| && frames[j].id != -1 :: frames[j].id > end.currFrame
  {
    if k == 0 {
      states, outs := [v.now.state], [];
      RunsNot(f, v.now);
    } else {
      var n := k - 1;
      states, outs := OnwardFires(f, v, frames, n);
      var (mid, sent) := Run(Consumer(f), v, frames[..n]);
      RunSnoc(Consumer(f), v, frames, n);
      ItemsSnoc(frames, n);
      states, outs := RunsOn(f, v.now, Items(frames[..n]), mid.now, sent, states, outs, frames[n].items,
                             if frames[n].id == -1 then -1 else mid.outFrame);
    }
  }

  // ---- Frames in force ----

  /**
   * The frames still in force, and how many of them came before the last new one: a repeated frame takes
   * the place of the one it repeats and of the pseudo-frames after that.
   */
  function InForce<T>(frames: seq<Frame<T>>): (r: (seq<Frame<T>>, nat))
    ensures r.1 <= |r.0|
  {
    if |frames| == 0 then ([], 0)
    else
      var n := |frames| - 1;
      var (e, m) := InForce(frames[..n]);
      if frames[n].id == -1 then (e + [frames[n]], m)
      else if m < |e| && e[m].id == frames[n].id then (e[..m] + [frames[n]], m)
      else (e + [frames[n]], |e|)
  }

  /** Ids other than -1 are above floor and never fall. */
  ghost predicate Ordered<T>(frames: seq<Frame<T>>, floor: int) {
    && (forall i | 0 <= i < |frames| && frames[i].id != -1 :: frames[i].id > floor)
    && (forall i, j | 0 <= i < j < |frames| && frames[i].id != -1 && frames[j].id != -1 :: frames[i].id <= frames[j].id)
  }

  lemma RunPush<S, I, O>(f: Turn<S, I, O>, v: Node<S>, e: seq<Frame<I>>, frame: Frame<I>)
    ensures Run(f, v, e + [frame]).0 == Step(f, Run(f, v, e).0, frame).0
  {
    var all := e + [frame];
    assert all[..|e|] == e && all[..|e| + 1] == all;
    RunSnoc(f, v, all, |e|);
  }

  /**
   * After the frames the node, now at after, is where it would be if only those in force, e, had come; the m
   * before the last new one lead to its checkpoint.
   */
  ghost predicate Forced<S, I, O>(f: Turn<S, I, O>, v: Node<S>, after: Node<S>, e: seq<Frame<I>>, m: nat) {
    && m <= |e| && Onward(e, v.currFrame) && after.now == Run(f, v, e).0.now
    && after.currFrame == Run(f, v, e).0.currFrame
    && (forall j | 0 <= j < |e| && e[j].id != -1 :: e[j].id <= after.currFrame)
    && if m < |e| && e[m].id != -1 then
         && after.cpoint == Run(f, v, e[..m]).0.now && after.currFrame == e[m].id
         && Run(f, v, e[..m]).0.currFrame < e[m].id && forall j | 0 <= j < m && e[j].id != -1 :: e[j].id < e[m].id
       else after.currFrame == v.currFrame && forall j | 0 <= j < |e| :: e[j].id == -1
  }

  lemma ForcedPseudo<S, I, O>(f: Turn<S, I, O>, v: Node<S>, mid: Node<S>, e: seq<Frame<I>>, m: nat, frame: Frame<I>)
    requires v.currFrame >= -1 && Forced(f, v, mid, e, m) && frame.id == -1
    ensures Forced(f, v, Step(f, mid, frame).0, e + [frame], m)
  {
    RunPush(f, v, e, frame);
    assert m <= |e| ==> (e + [frame])[..m] == e[..m];
  }

  lemma ForcedNew<S, I, O>(f: Turn<S, I, O>, v: Node<S>, mid: Node<S>, e: seq<Frame<I>>, m: nat, frame: Frame<I>)
    requires v.currFrame >= -1 && Forced(f, v, mid, e, m) && frame.id > mid.currFrame >= -1
    ensures Forced(f, v, Step(f, mid, frame).0, e + [frame], |e|)
  {
    RunPush(f, v, e, frame);
    assert (e + [frame])[..|e|] == e;
  }

  lemma ForcedAgain<S, I, O>(f: Turn<S, I, O>, v: Node<S>, mid: Node<S>, e: seq<Frame<I>>, m: nat, frame: Frame<I>)
    requires v.currFrame >= -1 && Forced(f, v, mid, e, m) && m < |e| && e[m].id == frame.id != -1
    ensures Forced(f, v, Step(f, mid, frame).0, e[..m] + [frame], m)
  {
    RunPush(f, v, e[..m], frame);
    assert (e[..m] + [frame])[..m] == e[..m];
  }

  /**
   * Whatever frames, versions of frames and pseudo-frames come, a node is where it would be if only those
   * in force had come.
   */
  lemma {:induction false} ForcedRun<S, I, O>(f: Turn<S, I, O>, v: Node<S>, frames: seq<Frame<I>>, k: nat)
    requires v.currFrame >= -1 && Ordered(frames, v.currFrame) && k <= |frames|
    ensures var (e, m) := InForce(frames[..k]); Forced(f, v, Run(f, v, frames[..k]).0, e, m)
    ensures forall j | k <= j < |frames| && frames[j].id != -1 :: frames[j].id >= Run(f, v, frames[..k]).0.currFrame
    ensures Run(f, v, frames[..k]).0.currFrame >= -1
  {
    if k > 0 {
      var n := k - 1;
      var mid := Run(f, v, frames[..n]).0;
      var (e, m) := InForce(frames[..n]);
      ForcedRun(f, v, frames, n);
      RunSnoc(f, v, frames, n);
      assert frames[..k][..n] == frames[..n];
      if frames[n].id == -1 {
        ForcedPseudo(f, v, mid, e, m, frames[n]);
      } else if m < |e| && e[m].id == frames[n].id {
        ForcedAgain(f, v, mid, e, m, frames[n]);
      } else {
        ForcedNew(f, v, mid, e, m, frames[n]);
      }
    }
  }

  lemma ForcedNow<S, I, O>(f: Turn<S, I, O>, v: Node<S>, frames: seq<Frame<I>>)
    requires v.currFrame >= -1 && Ordered(frames, v.currFrame)
    ensures var force := InForce(frames).0;
      Onward(force, v.currFrame) && Run(f, v, frames).0.now == Run(f, v, force).0.now
  {
    assert frames[..|frames|] == frames;
    ForcedRun(f, v, frames, |frames|);
    var (e, m) := InForce(frames);
    assert Forced(f, v, Run(f, v, frames).0, e, m);
  }

  /** Each frame is ok where its firings start. */
  ghost predicate Held<S, I, O>(f: Turn<S, I, O>, v: Node<S>, frames: seq<Frame<I>>, ok: (S, seq<I>) -> bool) {
    forall j: nat | j < |frames| :: HeldAt(f, v, frames, ok, j)
  }

  ghost predicate HeldAt<S, I, O>(f: Turn<S, I, O>, v: Node<S>, frames: seq<Frame<I>>, ok: (S, seq<I>) -> bool, j: nat)
    requires j < |frames|
  {
    var mid := Run(f, v, frames[..j]).0;
    ok(if frames[j].id != -1 && frames[j].id <= mid.currFrame then mid.cpoint else mid.now, frames[j].items)
  }

  /** Each frame is ok if none repeats another. */
  ghost predicate Straight<S, I, O>(f: Turn<S, I, O>, v: Node<S>, e: seq<Frame<I>>, ok: (S, seq<I>) -> bool) {
    forall j: nat | j < |e| :: StraightAt(f, v, e, ok, j)
  }

  ghost predicate StraightAt<S, I, O>(f: Turn<S, I, O>, v: Node<S>, e: seq<Frame<I>>, ok: (S, seq<I>) -> bool, j: nat)
    requires j < |e|
  {
    ok(Run(f, v, e[..j]).0.now, e[j].items)
  }

  lemma StraightOn<S, I, O>(f: Turn<S, I, O>, v: Node<S>, e: seq<Frame<I>>, m: nat, frame: Frame<I>,
                            ok: (S, seq<I>) -> bool)
    requires Straight(f, v, e, ok) && m <= |e| && ok(Run(f, v, e[..m]).0.now, frame.items)
    ensures Straight(f, v, e[..m] + [frame], ok)
  {
    var on := e[..m] + [frame];
    forall j: nat | j < |on| ensures StraightAt(f, v, on, ok, j) {
      assert on[..j] == e[..j];
      if j < m { assert StraightAt(f, v, e, ok, j); }
    }
  }

  /** If each frame is ok where its firings start, each one in force is ok without the others. */
  lemma {:induction false} ForcedHeld<S, I, O>(f: Turn<S, I, O>, v: Node<S>, frames: seq<Frame<I>>, k: nat,
                                               ok: (S, seq<I>) -> bool)
    requires v.currFrame >= -1 && Ordered(frames, v.currFrame) && k <= |frames| && Held(f, v, frames, ok)
    ensures Straight(f, v, InForce(frames[..k]).0, ok)
  {
    if k > 0 {
      var n := k - 1;
      var mid := Run(f, v, frames[..n]).0;
      var (e, m) := InForce(frames[..n]);
      ForcedHeld(f, v, frames, n, ok);
      ForcedRun(f, v, frames, n);
      assert HeldAt(f, v, frames, ok, n) && Forced(f, v, mid, e, m);
      assert frames[..k][..n] == frames[..n] && e[..|e|] == e;
      if frames[n].id != -1 && m < |e| && e[m].id == frames[n].id {
        StraightOn(f, v, e, m, frames[n], ok);
      } else {
        StraightOn(f, v, e, |e|, frames[n], ok);
      }
    }
  }

  // ---- Last versions ----

  /** A frame in front of last versions, unless one of them replaces it. */
  function InFront<T>(frame: Frame<T>, last: seq<Frame<T>>): seq<Frame<T>> {
    if |last| > 0 && last[0].id == frame.id then last else [frame] + last
  }

  /** A frame behind last versions, which may replace the latest. */
  function Behind<T>(last: seq<Frame<T>>, frame: Frame<T>): seq<Frame<T>> {
    if |last| > 0 && last[|last| - 1].id == frame.id then last[..|last| - 1] + [frame] else last + [frame]
  }

  lemma FrontAndBehind<T>(front: Frame<T>, last: seq<Frame<T>>, frame: Frame<T>)
    ensures InFront(front, Behind(last, frame)) == Behind(InFront(front, last), frame)
  {
    if |last| > 0 && last[0].id != front.id {
      assert ([front] + last)[..|last|] == [front] + last[..|last| - 1];
    }
  }

  lemma LastCons<T>(first: Frame<T>, rest: seq<Frame<T>>)
    ensures LastOnly([first] + rest) == InFront(first, LastOnly(rest))
  {
    assert ([first] + rest)[1..] == rest;
  }

  lemma {:induction false} LastSnoc<T>(frames: seq<Frame<T>>, frame: Frame<T>)
    ensures LastOnly(frames + [frame]) == Behind(LastOnly(frames), frame)
    decreases |frames|
  {
    if |frames| == 0 {
      LastCons(frame, []);
      assert frames + [frame] == [frame] + [];
    } else {
      var first, rest := frames[0], frames[1..];
      LastSnoc(rest, frame);
      LastCons(first, rest);
      LastCons(first, rest + [frame]);
      FrontAndBehind(first, LastOnly(rest), frame);
      assert frames == [first] + rest && frames + [frame] == [first] + (rest + [frame]);
    }
  }

  lemma ForceNext<T>(frames: seq<Frame<T>>, e: seq<Frame<T>>, m: nat, frame: Frame<T>)
    requires InForce(frames) == (e, m) && (|e| > 0 ==> m == |e| - 1) && frame.id != -1
    ensures var next := Behind(e, frame);
      InForce(frames + [frame]) == (next, |next| - 1) && next[|next| - 1] == frame
  {
    assert (frames + [frame])[..|frames|] == frames;
  }

  /** Without pseudo-frames, the frames in force are the last versions. */
  lemma {:induction false} ForceIsLast<T>(frames: seq<Frame<T>>)
    requires forall i | 0 <= i < |frames| :: frames[i].id != -1
    ensures var (e, m) := InForce(frames); e == LastOnly(frames) && (|e| > 0 ==> m == |e| - 1)
    decreases |frames|
  {
    if |frames| > 0 {
      var n := |frames| - 1;
      ForceIsLast(frames[..n]);
      var (e, m) := InForce(frames[..n]);
      ForceNext(frames[..n], e, m, frames[n]);
      LastSnoc(frames[..n], frames[n]);
      assert frames == frames[..n] + [frames[n]];
    }
  }

  lemma OnwardAll<S, I, O>(f: Filter<S, I, O>, v: Node<Saved<S, I>>, e: seq<Frame<I>>)
    returns (states: seq<S>, outs: seq<seq<O>>)
    requires v.currFrame >= -1 && Onward(e, v.currFrame)
    ensures var (end, sent) := Run(Consumer(f), v, e);
      RunsBy(f, v.now, Items(e), end.now, sent, states, outs) && (|e| > 0 ==> |end.now.left| < f.popRate)
  {
    assert e[..|e|] == e;
    states, outs := OnwardFires(f, v, e, |e|);
  }

  lemma SendsInForce<S, I, O>(f: Turn<S, I, O>, v: Node<S>, frames: seq<Frame<I>>)
    requires v.currFrame >= -1 && Disciplined(frames, v.currFrame)
    ensures Run(f, v, InForce(frames).0).1 == LastOnly(Run(f, v, frames).1) <==> NeverStale(f, v, Grouped(frames))
  {
    ForceIsLast(frames);
    LastSent(f, v, frames);
  }

  /**
   * So after any such frames the node has fired, from its first state, over the stream of what it had left
   * over and the items of the frames in force, as often as that allows. Without pseudo-frames, and if no
   * output is left stale, the last versions of what it has sent have everything these firings have made.
   */
  lemma NodeFires<S, I, O>(f: Filter<S, I, O>, v: Node<Saved<S, I>>, frames: seq<Frame<I>>)
    returns (states: seq<S>, outs: seq<seq<O>>)
    requires v.currFrame >= -1 && Ordered(frames, v.currFrame)
    ensures var force := InForce(frames).0; var (end, sent) := Run(Consumer(f), v, frames);
      && FiredTo(f, v.now, Items(force), end.now, states, outs) && (|force| > 0 ==> |end.now.left| < f.popRate)
      && (Disciplined(frames, v.currFrame) && NeverStale(Consumer(f), v, Grouped(frames)) ==>
            Items(LastOnly(sent)) == Flatten(outs))
  {
    ForcedNow(Consumer(f), v, frames);
    states, outs := OnwardAll(f, v, InForce(frames).0);
    if Disciplined(frames, v.currFrame) { SendsInForce(Consumer(f), v, frames); }
  }
}
