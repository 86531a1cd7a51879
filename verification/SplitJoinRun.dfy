/** The splitter, identity branches and the joiner working together on real tapes. */
module SplitJoinRuns {
  import opened SplitJoins
  import opened Tapes

  /** The tape is none of the branches' and shares no memory with them. */
  ghost predicate Outside(t: Tape, tapes: seq<Tape>) {
    forall u: nat :: OutsideAt(u, t, tapes)
  }

  ghost predicate OutsideAt(unused: nat, t: Tape, tapes: seq<Tape>) {
    forall i | 0 <= i < |tapes| :: tapes[i] != t && tapes[i].data != t.data
  }

  /** The input, the branches and the output, with what each holds. */
  ghost predicate Holding(input: Tape, tapes: seq<Tape>, output: Tape, s: State<byte>)
    reads input, input.data, output, output.data, tapes, set t | t in tapes :: t.data
  {
    && Connected(input, tapes, s.queues) && Connected(output, tapes, s.queues)
    && input != output && input.data != output.data && input.dataSize == output.dataSize
    && input.bytes == s.input && output.bytes == s.output
  }

  /** The turn can be taken, and what it moves fits on the tapes. */
  ghost predicate Possible(l: seq<nat>, tapes: seq<Tape>, output: Tape, s: State<byte>, turn: Turn) {
    && Enabled(l, s, turn)
    && if turn.SplitTurn? then Room(tapes, s.queues, l) else |s.output| + Total(l) <= output.data.Length
  }

  ghost predicate AllPossible(l: seq<nat>, tapes: seq<Tape>, output: Tape, s: State<byte>, turns: seq<Turn>)
    decreases |turns|
  {
    |turns| == 0 || (Possible(l, tapes, output, s, turns[0])
                     && AllPossible(l, tapes, output, After(l, s, turns[0]), turns[1..]))
  }

  lemma ConnectedOutside(t: Tape, tapes: seq<Tape>, q: seq<seq<byte>>)
    requires Connected(t, tapes, q)
    ensures Outside(t, tapes) && t.Valid()
  {
    assert ConnectedAt(0, t, tapes, q);
    forall u: nat ensures OutsideAt(u, t, tapes) { }
  }

  lemma Reconnected(a: Tape, b: Tape, tapes: seq<Tape>, q: seq<seq<byte>>)
    requires Connected(a, tapes, q) && b.Valid() && b.dataSize == a.dataSize && Outside(b, tapes)
    ensures Connected(b, tapes, q)
  {
    assert ConnectedAt(0, a, tapes, q) && OutsideAt(0, b, tapes);
    forall u: nat ensures ConnectedAt(u, b, tapes, q) { }
  }

  method TakeSplitTurn(input: Tape, tapes: seq<Tape>, output: Tape, ratios: seq<nat>, ghost l: seq<nat>,
                       ghost s: State<byte>)
    requires |tapes| == |ratios| && Holding(input, tapes, output, s) && Sizes(l, ratios, input.dataSize)
    requires Possible(l, tapes, output, s, SplitTurn)
    modifies input, tapes, set t | t in tapes :: t.data
    ensures Holding(input, tapes, output, After(l, s, SplitTurn))
  {
    ConnectedOutside(output, tapes, s.queues);
    assert OutsideAt(0, output, tapes);
    RunSplitter(input, tapes, ratios, l, s.queues);
    Reconnected(input, output, tapes, Split(l, s.input, s.queues));
  }

  method TakeJoinTurn(input: Tape, tapes: seq<Tape>, output: Tape, cache: array<nat>, ghost ratios: seq<nat>,
                      ghost l: seq<nat>,
                      ghost s: State<byte>)
    requires |tapes| == |ratios| && Holding(input, tapes, output, s) && Sizes(l, ratios, input.dataSize)
    requires Possible(l, tapes, output, s, JoinTurn)
    requires cache.Length == Total(ratios)
    requires forall k | 0 <= k < cache.Length ::
               cache[k] < |ratios| && Prefix(ratios, cache[k]) <= k < Prefix(ratios, cache[k] + 1)
    modifies output, output.data, tapes
    ensures Holding(input, tapes, output, After(l, s, JoinTurn))
  {
    ConnectedOutside(input, tapes, s.queues);
    assert OutsideAt(0, input, tapes);
    RunJoiner(output, tapes, cache, ratios, l, s.queues);
    Reconnected(output, input, tapes, Rest(l, s.queues));
  }

  /** Which branch each slot of the joiner's round belongs to. */
  ghost predicate Cached(cache: array<nat>, ratios: seq<nat>)
    reads cache
  {
    forall u: nat :: CachedAt(u, cache, ratios)
  }

  ghost predicate CachedAt(unused: nat, cache: array<nat>, ratios: seq<nat>)
    reads cache
  {
    && cache.Length == Total(ratios)
    && forall k | 0 <= k < cache.Length ::
         cache[k] < |ratios| && Prefix(ratios, cache[k]) <= k < Prefix(ratios, cache[k] + 1)
  }

  lemma {:induction false} OneMoreTurn<T>(l: seq<nat>, s: State<T>, turns: seq<Turn>, mid: State<T>, turn: Turn)
    requires Run(l, s, turns, mid) && Enabled(l, mid, turn)
    ensures Run(l, s, turns + [turn], After(l, mid, turn))
    decreases |turns|
  {
    if |turns| == 0 {
      assert turns + [turn] == [turn] && [turn][1..] == [];
    } else {
      assert (turns + [turn])[1..] == turns[1..] + [turn];
      OneMoreTurn(l, After(l, s, turns[0]), turns[1..], mid, turn);
    }
  }

  /** The first n turns lead from start to s, and the rest can be taken. */
  ghost predicate OnSchedule(l: seq<nat>, tapes: seq<Tape>, output: Tape, start: State<byte>, turns: seq<Turn>, n: nat,
                             s: State<byte>)
  {
    n <= |turns| && forall u: nat :: OnScheduleAt(u, l, tapes, output, start, turns, n, s)
  }

  ghost predicate OnScheduleAt(unused: nat, l: seq<nat>, tapes: seq<Tape>, output: Tape, start: State<byte>,
                               turns: seq<Turn>,
                               n: nat, s: State<byte>)
  {
    n <= |turns| && Run(l, start, turns[..n], s) && AllPossible(l, tapes, output, s, turns[n..])
  }

  lemma ScheduleStarts(l: seq<nat>, tapes: seq<Tape>, output: Tape, start: State<byte>, turns: seq<Turn>)
    requires AllPossible(l, tapes, output, start, turns)
    ensures OnSchedule(l, tapes, output, start, turns, 0, start)
  {
    assert turns[0..] == turns;
    forall u: nat ensures OnScheduleAt(u, l, tapes, output, start, turns, 0, start) { }
  }

  lemma NextOnSchedule(l: seq<nat>, tapes: seq<Tape>, output: Tape, start: State<byte>, turns: seq<Turn>, n: nat,
                       s: State<byte>)
    requires OnSchedule(l, tapes, output, start, turns, n, s) && n < |turns|
    ensures Possible(l, tapes, output, s, turns[n])
    ensures OnSchedule(l, tapes, output, start, turns, n + 1, After(l, s, turns[n]))
  {
    assert OnScheduleAt(0, l, tapes, output, start, turns, n, s);
    assert turns[..n + 1] == turns[..n] + [turns[n]] && turns[n..][1..] == turns[n + 1..];
    OneMoreTurn(l, start, turns[..n], s, turns[n]);
    var m, t := n + 1, After(l, s, turns[n]);
    forall u: nat ensures OnScheduleAt(u, l, tapes, output, start, turns, m, t) { }
  }

  method TakeTurn(input: Tape, tapes: seq<Tape>, output: Tape, ratios: seq<nat>, cache: array<nat>, turn: Turn,
                  ghost l: seq<nat>, ghost s: State<byte>)
    requires |tapes| == |ratios| && Holding(input, tapes, output, s) && Sizes(l, ratios, input.dataSize)
    requires Possible(l, tapes, output, s, turn) && Cached(cache, ratios)
    modifies input, output, output.data, tapes, set t | t in tapes :: t.data
    ensures Holding(input, tapes, output, After(l, s, turn)) && Cached(cache, ratios)
  {
    assert CachedAt(0, cache, ratios);
    if turn.SplitTurn? {
      TakeSplitTurn(input, tapes, output, ratios, l, s);
    } else {
      TakeJoinTurn(input, tapes, output, cache, ratios, l, s);
    }
  }

  /** What the tapes hold at the end is what Identity says of the queues. */
  lemma TapesHold(input: Tape, tapes: seq<Tape>, output: Tape, l: seq<nat>, original: seq<byte>, turns: seq<Turn>,
                  s: State<byte>)
    requires Holding(input, tapes, output, s) && |l| == |tapes|
    requires Run(l, State(original, Empty(|l|), []), turns, s)
    ensures |output.bytes| <= |original| && output.bytes == original[..|output.bytes|]
    ensures (forall i | 0 <= i < |tapes| :: tapes[i].bytes == []) ==> original == output.bytes + input.bytes
  {
    Identity(l, original, turns, s);
    assert ConnectedAt(0, input, tapes, s.queues);
    if forall i | 0 <= i < |tapes| :: tapes[i].bytes == [] {
      forall i | 0 <= i < |l| ensures s.queues[i] == [] { assert tapes[i].bytes == s.queues[i]; }
    }
  }

  /**
   * A whole schedule of a split-join of identities, on tapes that start empty: what the output tape
   * holds is the beginning of what was on the input tape, and once the branches are empty it is all
   * that the splitter has taken.
   */
  method RunTurns(input: Tape, tapes: seq<Tape>, output: Tape, ratios: seq<nat>, turns: seq<Turn>, ghost l: seq<nat>)
    requires |tapes| == |ratios| && Sizes(l, ratios, input.dataSize)
    requires Holding(input, tapes, output, State(input.bytes, Empty(|tapes|), []))
    requires AllPossible(l, tapes, output, State(input.bytes, Empty(|tapes|), []), turns)
    modifies input, output, output.data, tapes, set t | t in tapes :: t.data
    ensures |output.bytes| <= |old(input.bytes)| && output.bytes == old(input.bytes)[..|output.bytes|]
    ensures (forall i | 0 <= i < |tapes| :: tapes[i].bytes == []) ==> old(input.bytes) == output.bytes + input.bytes
  {
    ghost var original, start := input.bytes, State(input.bytes, Empty(|tapes|), []);
    var slots := SetSplitJoinRR(ratios);
    var cache := BuildTapeCache(ratios, slots);
    forall u: nat ensures CachedAt(u, cache, ratios) { }
    ghost var s := start;
    var n := 0;
    ScheduleStarts(l, tapes, output, start, turns);
    while n < |turns|
      invariant n <= |turns| && Holding(input, tapes, output, s) && Cached(cache, ratios)
      invariant OnSchedule(l, tapes, output, start, turns, n, s)
    {
      NextOnSchedule(l, tapes, output, start, turns, n, s);
      TakeTurn(input, tapes, output, ratios, cache, turns[n], l, s);
      s := After(l, s, turns[n]);
      n := n + 1;
    }
    assert OnScheduleAt(0, l, tapes, output, start, turns, n, s);
    TapesHold(input, tapes, output, l, original, turns[..n], s);
  }
}
