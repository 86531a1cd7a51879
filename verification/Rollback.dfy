/**
 * Speculation and rollback in run_sync, on values: a node that checkpoints on every new frame
 * and restores on every repeated one behaves as if only the last version of each frame had come.
 */
module Rollback {
  import opened Seqs

  datatype Frame<T> = Frame(id: int, items: seq<T>)

  /** What a node does with the items of one frame: from what it can save, to its new value and its output. */
  type Turn<!S, !I, !O> = (S, seq<I>) -> (S, seq<O>)

  /** now and cpoint are what the node restores: filter state, iteration count and leftover input. */
  datatype Node<S> = Node(now: S, cpoint: S, currFrame: int, outFrame: int)

  /** The frame sent for one input frame, unless it would be empty. */
  function Sent<O>(id: int, out: seq<O>): seq<Frame<O>> {
    if |out| > 0 then [Frame(id, out)] else []
  }

  /** One turn of run_sync's loop; a pseudo-frame (id -1) neither checkpoints nor restores. */
  function Step<S, I, O>(f: Turn<S, I, O>, node: Node<S>, frame: Frame<I>): (r: (Node<S>, seq<Frame<O>>))
  {
    if frame.id == -1 then
      var (after, out) := f(node.now, frame.items);
      (node.(now := after), Sent(-1, out))
    else if frame.id > node.currFrame then
      var (after, out) := f(node.now, frame.items);
      (Node(after, node.now, frame.id, node.outFrame + 1), Sent(node.outFrame, out))
    else
      var (after, out) := f(node.cpoint, frame.items);
      (node.(now := after), Sent(node.outFrame - 1, out))
  }

  /** What a run of frames does to a node, and the frames the node sends. */
  function Run<S, I, O>(f: Turn<S, I, O>, node: Node<S>, frames: seq<Frame<I>>): (r: (Node<S>, seq<Frame<O>>))
    decreases |frames|
  {
    if |frames| == 0 then (node, [])
    else
      var (next, sent) := Step(f, node, frames[0]);
      var (after, more) := Run(f, next, frames[1..]);
      (after, sent + more)
  }

  lemma {:induction false} RunConcat<S, I, O>(f: Turn<S, I, O>, node: Node<S>, a: seq<Frame<I>>, b: seq<Frame<I>>)
    ensures var (mid, sent) := Run(f, node, a); var (end, more) := Run(f, mid, b);
      Run(f, node, a + b) == (end, sent + more)
    decreases |a|
  {
    if |a| == 0 {
      assert a + b == b;
      assert [] + Run(f, node, b).1 == Run(f, node, b).1;
    } else {
      var (next, sent) := Step(f, node, a[0]);
      RunConcat(f, next, a[1..], b);
      ConcatFirst(a, b);
      var (mid, some) := Run(f, next, a[1..]);
      ConcatAssociates(sent, some, Run(f, mid, b).1);
    }
  }

  lemma ConcatFirst<T>(a: seq<T>, b: seq<T>)
    requires |a| > 0
    ensures (a + b)[0] == a[0] && (a + b)[1..] == a[1..] + b
  {
  }

  /** One frame more. */
  lemma RunSnoc<S, I, O>(f: Turn<S, I, O>, node: Node<S>, frames: seq<Frame<I>>, k: nat)
    requires k < |frames|
    ensures var before := Run(f, node, frames[..k]); var turn := Step(f, before.0, frames[k]);
      Run(f, node, frames[..k + 1]) == (turn.0, before.1 + turn.1)
  {
    var (mid, sent) := Run(f, node, frames[..k]);
    RunConcat(f, node, frames[..k], [frames[k]]);
    assert frames[..k + 1] == frames[..k] + [frames[k]];
    RunCons(f, mid, frames[k], []);
    var turn := Step(f, mid, frames[k]);
    assert [frames[k]] + [] == [frames[k]] && turn.1 + [] == turn.1;
  }

  /** A non-negative id exceeds all earlier ones or repeats the last; floor is the last one before the run. */
  ghost predicate Disciplined<T>(frames: seq<Frame<T>>, floor: int) {
    && (forall i | 0 <= i < |frames| :: frames[i].id > floor)
    && (forall i, j | 0 <= i < j < |frames| :: frames[i].id <= frames[j].id)
  }

  /** All versions of one frame, in the order they came. */
  datatype Group<T> = Group(id: int, earlier: seq<seq<T>>, last: seq<T>) {
    function Versions(): seq<seq<T>> { earlier + [last] }
  }

  function AsGroup<T>(id: int, versions: seq<seq<T>>): (g: Group<T>)
    requires |versions| > 0
    ensures g.id == id && g.Versions() == versions && g.last == versions[|versions| - 1]
  {
    Group(id, versions[..|versions| - 1], versions[|versions| - 1])
  }

  function Frames<T>(id: int, versions: seq<seq<T>>): (r: seq<Frame<T>>)
    ensures |r| == |versions| && forall i | 0 <= i < |r| :: r[i] == Frame(id, versions[i])
  {
    seq(|versions|, i requires 0 <= i < |versions| => Frame(id, versions[i]))
  }

  function Flat<T>(groups: seq<Group<T>>): seq<Frame<T>> {
    if |groups| == 0 then [] else Frames(groups[0].id, groups[0].Versions()) + Flat(groups[1..])
  }

  /** Ids rise strictly from above floor. */
  ghost predicate Rising<T>(groups: seq<Group<T>>, floor: int) {
    |groups| > 0 ==> groups[0].id > floor && Rising(groups[1..], groups[0].id)
  }

  /** Only the last version of each frame. */
  function Latest<T>(groups: seq<Group<T>>): (r: seq<Frame<T>>)
    ensures |r| == |groups| && forall i | 0 <= i < |r| :: r[i] == Frame(groups[i].id, groups[i].last)
  {
    seq(|groups|, i requires 0 <= i < |groups| => Frame(groups[i].id, groups[i].last))
  }

  lemma {:induction false} RisingFloor<T>(groups: seq<Group<T>>, floor: int, lower: int)
    requires Rising(groups, floor) && lower <= floor
    ensures Rising(groups, lower)
  {
  }

  /** The versions with which a run of frames begins. */
  function Grouped<T>(frames: seq<Frame<T>>): seq<Group<T>> {
    if |frames| == 0 then []
    else
      var rest := Grouped(frames[1..]);
      if |rest| > 0 && rest[0].id == frames[0].id then
        [Group(frames[0].id, [frames[0].items] + rest[0].earlier, rest[0].last)] + rest[1..]
      else [Group(frames[0].id, [], frames[0].items)] + rest
  }

  lemma FramesCons<T>(id: int, first: seq<T>, rest: seq<seq<T>>)
    ensures Frames(id, [first] + rest) == [Frame(id, first)] + Frames(id, rest)
  {
  }

  lemma FlatCons<T>(g: Group<T>, rest: seq<Group<T>>)
    ensures Flat([g] + rest) == Frames(g.id, g.Versions()) + Flat(rest)
  {
  }

  lemma {:induction false} GroupedRising<T>(frames: seq<Frame<T>>, floor: int)
    requires Disciplined(frames, floor)
    ensures Rising(Grouped(frames), floor)
    ensures |frames| > 0 ==> |Grouped(frames)| > 0 && Grouped(frames)[0].id == frames[0].id
  {
    if |frames| > 0 {
      var first, rest := frames[0], Grouped(frames[1..]);
      if |frames| > 1 {
        GroupedRising(frames[1..], first.id - 1);
        assert Grouped(frames)[1..] == if rest[0].id == first.id then rest[1..] else rest;
        RisingFirst(rest, first.id - 1, if rest[0].id == first.id then floor else first.id);
      } else {
        assert Grouped(frames)[1..] == [];
      }
    }
  }

  /** Every disciplined run of frames is a run of groups with rising ids. */
  lemma {:induction false} GroupedFlat<T>(frames: seq<Frame<T>>)
    ensures Flat(Grouped(frames)) == frames
  {
    if |frames| > 0 {
      var first, rest := frames[0], Grouped(frames[1..]);
      GroupedFlat(frames[1..]);
      if |rest| > 0 && rest[0].id == first.id {
        FlatOneMore(rest[0], first.items, rest[1..]);
        assert rest == [rest[0]] + rest[1..];
      } else {
        var g := Group(first.id, [], first.items);
        FlatCons(g, rest);
        assert Frames(g.id, g.Versions()) == [first];
      }
    }
  }

  /** An earlier version in the first group is one more frame in front. */
  lemma FlatOneMore<T>(g: Group<T>, first: seq<T>, rest: seq<Group<T>>)
    ensures Flat([Group(g.id, [first] + g.earlier, g.last)] + rest) == [Frame(g.id, first)] + Flat([g] + rest)
  {
  }

  lemma RisingFirst<T>(groups: seq<Group<T>>, floor: int, lower: int)
    requires Rising(groups, floor) && |groups| > 0 && groups[0].id > lower
    ensures Rising(groups, lower)
  {
  }

  lemma {:induction false} FlatDisciplined<T>(groups: seq<Group<T>>, floor: int)
    requires Rising(groups, floor)
    ensures Disciplined(Flat(groups), floor)
  {
    if |groups| > 0 { FlatDisciplined(groups[1..], groups[0].id); }
  }

  /** The outputs of the filter for each version, all starting from the same saved point. */
  function Outputs<S, I, O>(f: Turn<S, I, O>, base: S, versions: seq<seq<I>>): (r: seq<seq<O>>)
    ensures |r| == |versions| && forall i | 0 <= i < |r| :: r[i] == f(base, versions[i]).1
  {
    seq(|versions|, i requires 0 <= i < |versions| => f(base, versions[i]).1)
  }

  function NonEmpty<O>(outs: seq<seq<O>>): (r: seq<seq<O>>)
    ensures forall out | out in r :: |out| > 0
    ensures |r| == 0 <==> forall i | 0 <= i < |outs| :: outs[i] == []
    ensures |outs| > 0 && |outs[|outs| - 1]| > 0 ==> |r| > 0 && r[|r| - 1] == outs[|outs| - 1]
  {
    if |outs| == 0 then []
    else
      var rest := NonEmpty(outs[1..]);
      assert outs == [outs[0]] + outs[1..];
      assert forall i | 1 <= i < |outs| :: outs[i] == outs[1..][i - 1];
      if |outs[0]| > 0 then [outs[0]] + rest else rest
  }

  /** What is sent for the versions of one frame. */
  function SentGroup<S, I, O>(f: Turn<S, I, O>, node: Node<S>, g: Group<I>): seq<Group<O>>
  {
    var outs := NonEmpty(Outputs(f, node.now, g.Versions()));
    if |outs| == 0 then [] else [AsGroup(node.outFrame, outs)]
  }

  /** The node after a whole group. */
  function After<S, I, O>(f: Turn<S, I, O>, node: Node<S>, g: Group<I>): Node<S>
  {
    Step(f, node, Frame(g.id, g.last)).0
  }

  function SentGroups<S, I, O>(f: Turn<S, I, O>, node: Node<S>, groups: seq<Group<I>>): seq<Group<O>>
    decreases |groups|
  {
    if |groups| == 0 then [] else SentGroup(f, node, groups[0]) + SentGroups(f, After(f, node, groups[0]), groups[1..])
  }

  /** What is sent for the outputs of the versions of frame id, one frame for each that is not empty. */
  lemma SentCons<O>(id: int, outs: seq<seq<O>>)
    requires |outs| > 0
    ensures Frames(id, NonEmpty(outs)) == Sent(id, outs[0]) + Frames(id, NonEmpty(outs[1..]))
  {
    var rest := NonEmpty(outs[1..]);
    if |outs[0]| > 0 { FramesCons(id, outs[0], rest); }
        else { assert Sent(id, outs[0]) + Frames(id, rest) == Frames(id, rest); }
  }

  lemma RunCons<S, I, O>(f: Turn<S, I, O>, node: Node<S>, frame: Frame<I>, rest: seq<Frame<I>>)
    ensures Run(f, node, [frame] + rest).0 == Run(f, Step(f, node, frame).0, rest).0
    ensures Run(f, node, [frame] + rest).1 == Step(f, node, frame).1 + Run(f, Step(f, node, frame).0, rest).1
  {
  }

  /** A repeated frame changes nothing but the current value, which restarts from the checkpoint. */
  lemma StepAgain<S, I, O>(f: Turn<S, I, O>, node: Node<S>, frame: Frame<I>)
    requires -1 < frame.id == node.currFrame
    ensures Step(f, node, frame).0 == node.(now := f(node.cpoint, frame.items).0)
    ensures Step(f, node, frame).1 == Sent(node.outFrame - 1, f(node.cpoint, frame.items).1)
  {
  }

  lemma {:induction false} RunAgain<S, I, O>(f: Turn<S, I, O>, node: Node<S>, id: int, versions: seq<seq<I>>)
    requires -1 < id == node.currFrame
    ensures Run(f, node, Frames(id, versions)).0
         == if |versions| == 0 then node else node.(now := f(node.cpoint, versions[|versions| - 1]).0)
    decreases |versions|
  {
    if |versions| > 0 {
      var first, rest := Frame(id, versions[0]), versions[1..];
      var next := Step(f, node, first).0;
      assert Run(f, node, Frames(id, versions)).0 == Run(f, next, Frames(id, rest)).0 by {
        assert versions == [versions[0]] + rest;
        FramesCons(id, versions[0], rest);
        RunCons(f, node, first, Frames(id, rest));
      }
      StepAgain(f, node, first);
      RunAgain(f, next, id, rest);
      if |rest| > 0 { assert rest[|rest| - 1] == versions[|versions| - 1]; }
    }
  }

  /** Every version that repeats the current frame sends the output it gives from the checkpoint. */
  lemma {:induction false} SendAgain<S, I, O>(f: Turn<S, I, O>, node: Node<S>, id: int, versions: seq<seq<I>>)
    requires -1 < id == node.currFrame
    ensures Run(f, node, Frames(id, versions)).1 ==
            Frames(node.outFrame - 1, NonEmpty(Outputs(f, node.cpoint, versions)))
    decreases |versions|
  {
    var outs := Outputs(f, node.cpoint, versions);
    if |versions| == 0 {
      assert outs == [];
    } else {
      var first, rest, sentId := Frame(id, versions[0]), versions[1..], node.outFrame - 1;
      var next := Step(f, node, first).0;
      calc {
        Run(f, node, Frames(id, versions)).1;
        { assert versions == [versions[0]] + rest; FramesCons(id, versions[0], rest); }
        Run(f, node, [first] + Frames(id, rest)).1;
        { RunCons(f, node, first, Frames(id, rest)); StepAgain(f, node, first); }
        Sent(sentId, outs[0]) + Run(f, next, Frames(id, rest)).1;
        { StepAgain(f, node, first); SendAgain(f, next, id, rest); assert outs[1..] == Outputs(f, node.cpoint, rest); }
        Sent(sentId, outs[0]) + Frames(sentId, NonEmpty(outs[1..]));
        { SentCons(sentId, outs); }
        Frames(sentId, NonEmpty(outs));
      }
    }
  }

  /** All versions of a new frame leave the node exactly as the last version alone would. */
  lemma RunVersions<S, I, O>(f: Turn<S, I, O>, node: Node<S>, g: Group<I>)
    requires g.id > node.currFrame >= -1
    ensures Run(f, node, Frames(g.id, g.Versions())).0 == After(f, node, g)
    ensures Run(f, node, Frames(g.id, g.Versions())).1 == Flat(SentGroup(f, node, g))
  {
    var first, rest := g.Versions()[0], g.Versions()[1..];
    var next := Step(f, node, Frame(g.id, first)).0;
    RunAgain(f, next, g.id, rest);
    SendAgain(f, next, g.id, rest);
    assert g.Versions() == [first] + rest;
    FramesCons(g.id, first, rest);
    RunCons(f, node, Frame(g.id, first), Frames(g.id, rest));
    var outs := Outputs(f, node.now, g.Versions());
    assert outs[1..] == Outputs(f, node.now, rest);
    SentCons(node.outFrame, outs);
    FlatSent(node.outFrame, NonEmpty(outs));
  }

  lemma FlatSent<O>(id: int, outs: seq<seq<O>>)
    ensures Flat(if |outs| == 0 then [] else [AsGroup(id, outs)]) == Frames(id, outs)
  {
  }

  /** A run of last versions, one frame at a time. */
  lemma RunLatest<S, I, O>(f: Turn<S, I, O>, node: Node<S>, groups: seq<Group<I>>)
    requires |groups| > 0
    ensures var first := Frame(groups[0].id, groups[0].last); var next := After(f, node, groups[0]);
      && Run(f, node, Latest(groups)).0 == Run(f, next, Latest(groups[1..])).0
      && Run(f, node, Latest(groups)).1 == Step(f, node, first).1 + Run(f, next, Latest(groups[1..])).1
  {
    var first := Frame(groups[0].id, groups[0].last);
    assert Latest(groups) == [first] + Latest(groups[1..]);
    RunCons(f, node, first, Latest(groups[1..]));
  }

  /** What a node sends is again versions of frames with rising ids. */
  lemma {:induction false} SentRising<S, I, O>(f: Turn<S, I, O>, node: Node<S>, groups: seq<Group<I>>)
    requires node.currFrame >= -1 && Rising(groups, node.currFrame)
    ensures Rising(SentGroups(f, node, groups), node.outFrame - 1)
    decreases |groups|
  {
    if |groups| > 0 {
      var next := After(f, node, groups[0]);
      SentRising(f, next, groups[1..]);
      var head, rest := SentGroup(f, node, groups[0]), SentGroups(f, next, groups[1..]);
      if |head| == 0 {
        RisingFloor(rest, next.outFrame - 1, node.outFrame - 1);
        assert head + rest == rest;
      } else {
        assert (head + rest)[1..] == rest;
      }
    }
  }

  /**
   * Rollback is sound: whatever versions were tried, the node ends as if only the last version of
   * each frame had come.
   */
  lemma {:induction false} RunGroups<S, I, O>(f: Turn<S, I, O>, node: Node<S>, groups: seq<Group<I>>)
    requires node.currFrame >= -1 && Rising(groups, node.currFrame)
    ensures Run(f, node, Flat(groups)).0 == Run(f, node, Latest(groups)).0
    ensures Run(f, node, Flat(groups)).1 == Flat(SentGroups(f, node, groups))
    decreases |groups|
  {
    if |groups| > 0 {
      var g, rest := groups[0], groups[1..];
      var next, frames := After(f, node, g), Frames(g.id, g.Versions());
      RunVersions(f, node, g);
      RunGroups(f, next, rest);
      RunConcat(f, node, frames, Flat(rest));
      FlatHead(SentGroup(f, node, g), SentGroups(f, next, rest));
      RunLatest(f, node, groups);
    }
  }

  lemma FlatHead<T>(head: seq<Group<T>>, rest: seq<Group<T>>)
    requires |head| <= 1
    ensures Flat(head + rest) == Flat(head) + Flat(rest)
  {
    if |head| == 0 { assert head + rest == rest; } else {
      assert (head + rest)[1..] == rest;
      assert Flat(head[1..]) == [];
    }
  }

  /** The same, stated on the frames as they arrive. */
  lemma RollbackSound<S, I, O>(f: Turn<S, I, O>, node: Node<S>, frames: seq<Frame<I>>)
    requires node.currFrame >= -1 && Disciplined(frames, node.currFrame)
    ensures var groups := Grouped(frames);
      && Run(f, node, frames).0 == Run(f, node, Latest(groups)).0
    ensures Disciplined(Run(f, node, frames).1, node.outFrame - 1)
  {
    GroupedFlat(frames);
    GroupedRising(frames, node.currFrame);
    RunGroups(f, node, Grouped(frames));
    SentRising(f, node, Grouped(frames));
    FlatDisciplined(SentGroups(f, node, Grouped(frames)), node.outFrame - 1);
  }

  /** The last version sends nothing although an earlier one did: nothing supersedes what was sent. */
  ghost predicate Stale<O>(outs: seq<seq<O>>) {
    |outs| > 0 && outs[|outs| - 1] == [] && exists i | 0 <= i < |outs| :: outs[i] != []
  }

  ghost predicate NeverStale<S, I, O>(f: Turn<S, I, O>, node: Node<S>, groups: seq<Group<I>>)
    decreases |groups|
  {
    |groups| > 0 ==>
      && !Stale(Outputs(f, node.now, groups[0].Versions()))
      && NeverStale(f, After(f, node, groups[0]), groups[1..])
  }

  lemma HeadLatest<S, I, O>(f: Turn<S, I, O>, node: Node<S>, g: Group<I>)
    requires g.id > node.currFrame >= -1
    ensures forall h | h in SentGroup(f, node, g) :: h.id == node.outFrame
    ensures forall h | h in Step(f, node, Frame(g.id, g.last)).1 :: h.id == node.outFrame
    ensures Latest(SentGroup(f, node, g)) == Step(f, node, Frame(g.id, g.last)).1 <==>
            !Stale(Outputs(f, node.now, g.Versions()))
  {
  }

  lemma Leads<T>(a: seq<Frame<T>>, rest: seq<Frame<T>>, id: int)
    requires |a| <= 1 && (forall h | h in a :: h.id == id) && (forall h | h in rest :: h.id > id)
    ensures |a| == 1 <==> |a + rest| > 0 && (a + rest)[0].id == id
    ensures (a + rest)[..|a|] == a && (a + rest)[|a|..] == rest
  {
  }

  lemma SameHead<T>(a: seq<Frame<T>>, b: seq<Frame<T>>, restA: seq<Frame<T>>, restB: seq<Frame<T>>, id: int)
    requires |a| <= 1 && (forall h | h in a :: h.id == id) && (forall h | h in restA :: h.id > id)
    requires |b| <= 1 && (forall h | h in b :: h.id == id) && (forall h | h in restB :: h.id > id)
    ensures a + restA == b + restB <==> a == b && restA == restB
  {
    Leads(a, restA, id);
    Leads(b, restB, id);
  }

  lemma {:induction false} LatestIds<T>(groups: seq<Group<T>>, floor: int)
    requires Rising(groups, floor)
    ensures forall h | h in Latest(groups) :: h.id > floor
  {
    if |groups| > 0 { LatestIds(groups[1..], groups[0].id); }
  }

  lemma LatestConcat<T>(a: seq<Group<T>>, b: seq<Group<T>>)
    ensures Latest(a + b) == Latest(a) + Latest(b)
  {
  }

  lemma {:induction false} LatestSent<S, I, O>(f: Turn<S, I, O>, node: Node<S>, groups: seq<Group<I>>)
    requires node.currFrame >= -1 && Rising(groups, node.currFrame)
    ensures forall h | h in Run(f, node, Latest(groups)).1 :: h.id > node.outFrame - 1
    decreases |groups|
  {
    if |groups| > 0 {
      RunLatest(f, node, groups);
      LatestSent(f, After(f, node, groups[0]), groups[1..]);
    }
  }

  /**
   * The last versions of what a node sent are what it would have sent for the last versions only,
   * exactly when no frame's last version sends nothing after an earlier version sent something.
   */
  lemma {:induction false} SentLatest<S, I, O>(f: Turn<S, I, O>, node: Node<S>, groups: seq<Group<I>>)
    requires node.currFrame >= -1 && Rising(groups, node.currFrame)
    ensures Latest(SentGroups(f, node, groups)) == Run(f, node, Latest(groups)).1 <==> NeverStale(f, node, groups)
    decreases |groups|
  {
    if |groups| == 0 {
      assert Latest(groups) == [] && SentGroups(f, node, groups) == [];
    } else {
      var g, rest := groups[0], groups[1..];
      var next := After(f, node, g);
      var head, tail := SentGroup(f, node, g), SentGroups(f, next, rest);
      var sent, more := Step(f, node, Frame(g.id, g.last)).1, Run(f, next, Latest(rest)).1;
      SentLatest(f, next, rest);
      SentRising(f, next, rest);
      LatestIds(tail, node.outFrame);
      HeadLatest(f, node, g);
      LatestSent(f, next, rest);
      RunLatest(f, node, groups);
      LatestConcat(head, tail);
      SameHead(Latest(head), sent, Latest(tail), more, node.outFrame);
    }
  }

  /** A version with an empty output leaves the frame it should have replaced in force downstream. */
  lemma StaleExample()
    ensures var f: Turn<int, int, int> := (s: int, items: seq<int>) => (s + |items|, items);
      var groups := [Group(0, [[7]], [])];
      && Rising(groups, -1)
      && Run(f, Node(0, 0, -1, 0), Flat(groups)).0 == Run(f, Node(0, 0, -1, 0), Latest(groups)).0
      && Run(f, Node(0, 0, -1, 0), Flat(groups)).1 == [Frame(0, [7])]
      && Run(f, Node(0, 0, -1, 0), Latest(groups)).1 == []
  {
  }

  /**
   * Two nodes of any types, one reading what the other sends: the second ends as if only last versions
   * had been sent to the first, and what it sends is again groups of versions and, if it leaves no stale
   * frame in force either, their last versions - so that a third node can follow.
   */
  lemma PairSound<S, U, I, M, O>(f: Turn<S, I, M>, node: Node<S>, g: Turn<U, M, O>, next: Node<U>,
                                 groups: seq<Group<I>>)
    requires node.currFrame >= -1 && Rising(groups, node.currFrame) && NeverStale(f, node, groups)
    requires next.currFrame >= -1 && next.currFrame <= node.outFrame - 1
    ensures var all, last := Run(f, node, Flat(groups)).1, Run(f, node, Latest(groups)).1;
      var passed := SentGroups(f, node, groups);
      && Run(g, next, all).0 == Run(g, next, last).0
      && Run(g, next, all).1 == Flat(SentGroups(g, next, passed))
      && (Run(g, next, last).1 == Latest(SentGroups(g, next, passed)) <==> NeverStale(g, next, passed))
      && Rising(SentGroups(g, next, passed), next.outFrame - 1)
  {
    var passed := SentGroups(f, node, groups);
    RunGroups(f, node, groups);
    SentRising(f, node, groups);
    SentLatest(f, node, groups);
    RisingFloor(passed, node.outFrame - 1, next.currFrame);
    RunGroups(g, next, passed);
    SentRising(g, next, passed);
    SentLatest(g, next, passed);
  }
}
