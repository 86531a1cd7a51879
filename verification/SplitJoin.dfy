/** The weighted round-robin splitter and joiner of the uniprocessor library. */
module SplitJoins {
  import opened Seqs
  import opened Tapes

  // ---- On queues ----

  /** What the first i branches take in one round. */
  function Prefix(l: seq<nat>, i: nat): nat
    requires i <= |l|
  {
    if i == 0 then 0 else Prefix(l, i - 1) + l[i - 1]
  }

  function Total(l: seq<nat>): nat { Prefix(l, |l|) }

  lemma {:induction false} PrefixOrder(l: seq<nat>, i: nat, j: nat)
    requires i <= j <= |l|
    ensures Prefix(l, i) <= Prefix(l, j)
  {
    if i < j { PrefixOrder(l, i, j - 1); }
  }

  /** Branch i's part of a round. */
  function Chunk<T>(l: seq<nat>, block: seq<T>, i: nat): (c: seq<T>)
    requires i < |l| && Total(l) <= |block|
    ensures |c| == l[i]
  {
    PrefixOrder(l, i + 1, |l|);
    block[Prefix(l, i)..Prefix(l, i) + l[i]]
  }

  /** The queues after a round of the splitter. */
  function Split<T>(l: seq<nat>, input: seq<T>, queues: seq<seq<T>>): (r: seq<seq<T>>)
    requires |queues| == |l| && Total(l) <= |input|
    ensures |r| == |l| && forall i | 0 <= i < |l| :: r[i] == queues[i] + Chunk(l, input, i)
  {
    seq(|l|, i requires 0 <= i < |l| => queues[i] + Chunk(l, input, i))
  }

  ghost predicate Full<T>(l: seq<nat>, queues: seq<seq<T>>) {
    |queues| == |l| && forall i | 0 <= i < |l| :: l[i] <= |queues[i]|
  }

  /** What a round of the joiner puts out from the first k branches. */
  function Gather<T>(l: seq<nat>, queues: seq<seq<T>>, k: nat): seq<T>
    requires Full(l, queues) && k <= |l|
  {
    if k == 0 then [] else Gather(l, queues, k - 1) + queues[k - 1][..l[k - 1]]
  }

  /** The queues after a round of the joiner. */
  function Rest<T>(l: seq<nat>, queues: seq<seq<T>>): (r: seq<seq<T>>)
    requires Full(l, queues)
    ensures |r| == |l| && forall i | 0 <= i < |l| :: r[i] == queues[i][l[i]..]
  {
    seq(|l|, i requires 0 <= i < |l| => queues[i][l[i]..])
  }

  /**
   * Slot s of a round belongs to the branch i before which the others take at most s items: the splitter
   * puts item s of the input there, and the joiner takes it from there.
   */
  lemma {:induction false} SlotOrder<T>(l: seq<nat>, input: seq<T>, queues: seq<seq<T>>, i: nat, s: nat)
    requires i < |l| && Prefix(l, i) <= s < Prefix(l, i + 1)
    ensures |queues| == |l| && Total(l) <= |input| ==>
              s < |input| && s - Prefix(l, i) < l[i] &&
              Split(l, input, queues)[i][|queues[i]| + s - Prefix(l, i)] == input[s]
    ensures Full(l, queues) ==>
              s < |Gather(l, queues, |l|)| && Gather(l, queues, |l|)[s] == queues[i][s - Prefix(l, i)]
  {
    PrefixOrder(l, i + 1, |l|);
    if |queues| == |l| && Total(l) <= |input| { SplitSlot(l, input, queues, i, s); }
    if Full(l, queues) { GatherSlot(l, queues, i, s, |l|); }
  }

  lemma SplitSlot<T>(l: seq<nat>, input: seq<T>, queues: seq<seq<T>>, i: nat, s: nat)
    requires i < |l| == |queues| && Prefix(l, i) <= s < Prefix(l, i + 1) <= Total(l) <= |input|
    ensures s - Prefix(l, i) < l[i] && Split(l, input, queues)[i][|queues[i]| + s - Prefix(l, i)] == input[s]
  {
    var j := s - Prefix(l, i);
    assert Chunk(l, input, i)[j] == input[s];
  }

  lemma {:induction false} GatherLength<T>(l: seq<nat>, q: seq<seq<T>>, k: nat)
    requires Full(l, q) && k <= |l|
    ensures |Gather(l, q, k)| == Prefix(l, k)
  {
    if k > 0 { GatherLength(l, q, k - 1); }
  }

  lemma {:induction false} GatherSlot<T>(l: seq<nat>, queues: seq<seq<T>>, i: nat, s: nat, k: nat)
    requires Full(l, queues) && i < k <= |l| && Prefix(l, i) <= s < Prefix(l, i + 1)
    ensures s < |Gather(l, queues, k)| && Gather(l, queues, k)[s] == queues[i][s - Prefix(l, i)]
  {
    GatherLength(l, queues, k - 1);
    if i < k - 1 { GatherSlot(l, queues, i, s, k - 1); }
  }

  // ---- Splitting and joining ----

  /** What branch i holds after the given rounds have been split. */
  function Column<T>(l: seq<nat>, rounds: seq<seq<T>>, i: nat): seq<T>
    requires i < |l| && forall b | b in rounds :: |b| == Total(l)
  {
    if |rounds| == 0 then [] else Chunk(l, rounds[0], i) + Column(l, rounds[1..], i)
  }

  function Flat<T>(rounds: seq<seq<T>>): seq<T> {
    if |rounds| == 0 then [] else rounds[0] + Flat(rounds[1..])
  }

  lemma {:induction false} ColumnSnoc<T>(l: seq<nat>, rounds: seq<seq<T>>, b: seq<T>, i: nat)
    requires i < |l| && (forall x | x in rounds :: |x| == Total(l)) && |b| == Total(l)
    ensures Column(l, rounds + [b], i) == Column(l, rounds, i) + Chunk(l, b, i)
    decreases |rounds|
  {
    if |rounds| == 0 {
      assert rounds + [b] == [b] && [b][1..] == [];
      assert Column(l, [b], i) == Chunk(l, b, i) + [];
    } else {
      assert (rounds + [b])[1..] == rounds[1..] + [b];
      ColumnSnoc(l, rounds[1..], b, i);
    }
  }

  lemma {:induction false} FlatSnoc<T>(rounds: seq<seq<T>>, b: seq<T>)
    ensures Flat(rounds + [b]) == Flat(rounds) + b
    decreases |rounds|
  {
    if |rounds| == 0 {
      assert rounds + [b] == [b] && [b][1..] == [];
      assert Flat([b]) == b + [];
    } else {
      assert (rounds + [b])[1..] == rounds[1..] + [b];
      FlatSnoc(rounds[1..], b);
    }
  }

  lemma ChunkExtends<T>(l: seq<nat>, b: seq<T>, i: nat)
    requires i < |l| && Total(l) <= |b|
    ensures Prefix(l, i) <= |b| && Prefix(l, i + 1) <= |b|
            && b[..Prefix(l, i)] + Chunk(l, b, i) == b[..Prefix(l, i + 1)]
  {
    PrefixOrder(l, i + 1, |l|);
  }

  /** Joining the parts of a split round gives the round back. */
  lemma {:induction false} GatherChunks<T>(l: seq<nat>, b: seq<T>, queues: seq<seq<T>>, k: nat)
    requires |b| == Total(l) && |queues| == |l| && k <= |l|
    requires forall i | 0 <= i < |l| :: l[i] <= |queues[i]| && queues[i][..l[i]] == Chunk(l, b, i)
    ensures Prefix(l, k) <= |b| && Gather(l, queues, k) == b[..Prefix(l, k)]
  {
    if k > 0 {
      GatherChunks(l, b, queues, k - 1);
      ChunkExtends(l, b, k - 1);
    }
  }

  /** The three places an element can be: not yet split, in a branch, joined. */
  datatype State<T> = State(input: seq<T>, queues: seq<seq<T>>, output: seq<T>)

  datatype Turn = SplitTurn | JoinTurn

  ghost predicate Enabled<T>(l: seq<nat>, s: State<T>, turn: Turn) {
    |s.queues| == |l| && if turn.SplitTurn? then Total(l) <= |s.input| else Full(l, s.queues)
  }

  ghost function After<T>(l: seq<nat>, s: State<T>, turn: Turn): State<T>
    requires Enabled(l, s, turn)
  {
    if turn.SplitTurn? then State(s.input[Total(l)..], Split(l, s.input, s.queues), s.output)
    else State(s.input, Rest(l, s.queues), s.output + Gather(l, s.queues, |l|))
  }

  ghost predicate Run<T>(l: seq<nat>, s: State<T>, turns: seq<Turn>, end: State<T>)
    decreases |turns|
  {
    if |turns| == 0 then end == s else Enabled(l, s, turns[0]) && Run(l, After(l, s, turns[0]), turns[1..], end)
  }

  function Empty<T>(n: nat): (r: seq<seq<T>>)
    ensures |r| == n && forall i | 0 <= i < n :: r[i] == []
  {
    if n == 0 then [] else Empty(n - 1) + [[]]
  }

  /** The branches hold exactly the given rounds, and everything is in order. */
  ghost predicate Consistent<T>(l: seq<nat>, s: State<T>, original: seq<T>, rounds: seq<seq<T>>) {
    forall u: nat :: ConsistentAt(u, l, s, original, rounds)
  }

  ghost predicate ConsistentAt<T>(unused: nat, l: seq<nat>, s: State<T>, original: seq<T>, rounds: seq<seq<T>>) {
    && |s.queues| == |l| && (forall b | b in rounds :: |b| == Total(l))
    && (forall i | 0 <= i < |l| :: s.queues[i] == Column(l, rounds, i))
    && original == s.output + Flat(rounds) + s.input
  }

  lemma SplitColumn<T>(l: seq<nat>, input: seq<T>, rounds: seq<seq<T>>, b: seq<T>, i: nat)
    requires i < |l| && (forall x | x in rounds :: |x| == Total(l)) && Total(l) <= |input| && b == input[..Total(l)]
    ensures Column(l, rounds + [b], i) == Column(l, rounds, i) + Chunk(l, input, i)
  {
    PrefixOrder(l, i + 1, |l|);
    assert Chunk(l, input, i) == Chunk(l, b, i);
    ColumnSnoc(l, rounds, b, i);
  }

  lemma SplitKeeps<T>(l: seq<nat>, s: State<T>, original: seq<T>, rounds: seq<seq<T>>)
    requires Consistent(l, s, original, rounds) && Enabled(l, s, SplitTurn)
    ensures Consistent(l, After(l, s, SplitTurn), original, rounds + [s.input[..Total(l)]])
  {
    var b := s.input[..Total(l)];
    assert ConsistentAt(0, l, s, original, rounds);
    forall i | 0 <= i < |l| ensures s.queues[i] + Chunk(l, s.input, i) == Column(l, rounds + [b], i) {
      SplitColumn(l, s.input, rounds, b, i);
    }
    FlatSnoc(rounds, b);
    InOrder(s.output, Flat(rounds), b, s.input[Total(l)..], s.input);
    forall u: nat ensures ConsistentAt(u, l, After(l, s, SplitTurn), original, rounds + [b]) { }
  }

  lemma InOrder<T>(x: seq<T>, y: seq<T>, b: seq<T>, z: seq<T>, bz: seq<T>)
    requires bz == b + z
    ensures x + y + bz == x + (y + b) + z
  {
  }

  lemma ColumnHead<T>(l: seq<nat>, rounds: seq<seq<T>>, i: nat)
    requires i < |l| && |rounds| > 0 && forall x | x in rounds :: |x| == Total(l)
    ensures |Column(l, rounds, i)| >= l[i]
    ensures Column(l, rounds, i)[..l[i]] == Chunk(l, rounds[0], i)
    ensures Column(l, rounds, i)[l[i]..] == Column(l, rounds[1..], i)
  {
  }

  lemma JoinRound<T>(l: seq<nat>, queues: seq<seq<T>>, rounds: seq<seq<T>>)
    requires |queues| == |l| && |rounds| > 0 && (forall x | x in rounds :: |x| == Total(l))
    requires forall i | 0 <= i < |l| :: queues[i] == Column(l, rounds, i)
    ensures Full(l, queues) && Gather(l, queues, |l|) == rounds[0]
    ensures forall i | 0 <= i < |l| :: queues[i][l[i]..] == Column(l, rounds[1..], i)
  {
    forall i | 0 <= i < |l|
      ensures l[i] <= |queues[i]| && queues[i][..l[i]] == Chunk(l, rounds[0], i)
              && queues[i][l[i]..] == Column(l, rounds[1..], i)
    {
      ColumnHead(l, rounds, i);
    }
    GatherChunks(l, rounds[0], queues, |l|);
  }

  lemma JoinKeeps<T>(l: seq<nat>, s: State<T>, original: seq<T>, rounds: seq<seq<T>>) returns (left: seq<seq<T>>)
    requires Consistent(l, s, original, rounds) && Enabled(l, s, JoinTurn)
    ensures Consistent(l, After(l, s, JoinTurn), original, left)
  {
    assert ConsistentAt(0, l, s, original, rounds);
    if |rounds| == 0 {
      left := [];
      NothingToGather(l, s.queues, |l|);
      assert s.output + [] == s.output;
    } else {
      left := rounds[1..];
      JoinRound(l, s.queues, rounds);
      ConcatAssociates(s.output, rounds[0], Flat(left));
    }
    forall u: nat ensures ConsistentAt(u, l, After(l, s, JoinTurn), original, left) { }
  }

  lemma BeginsWith<T>(all: seq<T>, x: seq<T>, y: seq<T>, z: seq<T>)
    requires all == x + y + z
    ensures |x| <= |all| && all[..|x|] == x && (y == [] ==> all == x + z)
  {
  }

  lemma {:induction false} NothingToGather<T>(l: seq<nat>, queues: seq<seq<T>>, k: nat)
    requires Full(l, queues) && k <= |l| && forall i | 0 <= i < |l| :: queues[i] == []
    ensures Gather(l, queues, k) == []
  {
    if k > 0 { NothingToGather(l, queues, k - 1); }
  }

  lemma {:induction false} RunKeeps<T>(l: seq<nat>, s: State<T>, turns: seq<Turn>, end: State<T>, original: seq<T>,
                                       rounds: seq<seq<T>>)
    returns (left: seq<seq<T>>)
    requires Consistent(l, s, original, rounds) && Run(l, s, turns, end)
    ensures Consistent(l, end, original, left)
    decreases |turns|
  {
    if |turns| == 0 {
      left := rounds;
    } else if turns[0].SplitTurn? {
      SplitKeeps(l, s, original, rounds);
      left := RunKeeps(l, After(l, s, SplitTurn), turns[1..], end, original, rounds + [s.input[..Total(l)]]);
    } else {
      var fewer := JoinKeeps(l, s, original, rounds);
      left := RunKeeps(l, After(l, s, JoinTurn), turns[1..], end, original, fewer);
    }
  }

  /**
   * The split-join of identities is the identity: for any weights, zeros included, and any mix of
   * rounds of the splitter and the joiner, what has been joined is the beginning of the input; and
   * once the branches are empty it is all that has been split.
   */
  lemma Identity<T>(l: seq<nat>, input: seq<T>, turns: seq<Turn>, end: State<T>)
    requires Run(l, State(input, Empty(|l|), []), turns, end)
    ensures |end.output| <= |input| && end.output == input[..|end.output|]
    ensures |end.queues| == |l|
    ensures (forall i | 0 <= i < |l| :: end.queues[i] == []) ==> input == end.output + end.input
  {
    var s := State(input, Empty(|l|), []);
    assert input == [] + [] + input;
    forall u: nat ensures ConsistentAt(u, l, s, input, []) { }
    var left := RunKeeps(l, s, turns, end, input, []);
    assert ConsistentAt(0, l, end, input, left);
    BeginsWith(input, end.output, Flat(left), end.input);
    if forall i | 0 <= i < |l| :: end.queues[i] == [] { EmptyRounds(l, left); }
  }

  lemma EmptyColumn<T>(l: seq<nat>, rounds: seq<seq<T>>, i: nat)
    requires i < |l| && |rounds| > 0 && (forall b | b in rounds :: |b| == Total(l)) && Column(l, rounds, i) == []
    ensures l[i] == 0 && (forall b | b in rounds[1..] :: |b| == Total(l)) && Column(l, rounds[1..], i) == []
  {
    assert |Chunk(l, rounds[0], i)| == 0;
  }

  /** Rounds of which every branch has an empty part are empty. */
  lemma {:induction false} EmptyRounds<T>(l: seq<nat>, rounds: seq<seq<T>>)
    requires (forall b | b in rounds :: |b| == Total(l)) && forall i | 0 <= i < |l| :: Column(l, rounds, i) == []
    ensures Flat(rounds) == []
    decreases |rounds|
  {
    if |rounds| > 0 {
      forall i | 0 <= i < |l| ensures l[i] == 0 && Column(l, rounds[1..], i) == [] { EmptyColumn(l, rounds, i); }
      ZeroTotal(l, |l|);
      EmptyRounds(l, rounds[1..]);
      assert rounds[0] == [];
    }
  }

  lemma {:induction false} ZeroTotal(l: seq<nat>, k: nat)
    requires k <= |l| && forall i | 0 <= i < |l| :: l[i] == 0
    ensures Prefix(l, k) == 0
  {
    if k > 0 { ZeroTotal(l, k - 1); }
  }

  // ---- The code ----

  /** slots is the number of items of one round. */
  method SetSplitJoinRR(ratio: seq<nat>) returns (slots: nat)
    ensures slots == Total(ratio)
  {
    slots := 0;
    for i := 0 to |ratio|
      invariant slots == Prefix(ratio, i)
    {
      slots := slots + ratio[i];
    }
  }

  /** The branch each slot of a round belongs to: branches with ratio 0 get none. */
  method BuildTapeCache(ratio: seq<nat>, slots: nat) returns (cache: array<nat>)
    requires slots == Total(ratio)
    ensures fresh(cache) && cache.Length == slots
    ensures forall s | 0 <= s < slots ::
            cache[s] < |ratio| && Prefix(ratio, cache[s]) <= s < Prefix(ratio, cache[s] + 1)
  {
    cache := new nat[slots];
    var i, j, slot := 0, 0, 0;
    while slot < slots
      invariant 0 <= slot <= slots && 0 <= j && 0 <= i <= |ratio|
      invariant i == |ratio| ==> slot == slots && j == 0
      invariant i < |ratio| ==> Prefix(ratio, i) + j == slot && j <= ratio[i]
      invariant forall s | 0 <= s < slot ::
                cache[s] < |ratio| && Prefix(ratio, cache[s]) <= s < Prefix(ratio, cache[s] + 1)
    {
      while j >= ratio[i]
        invariant 0 <= j && 0 <= i < |ratio| && Prefix(ratio, i) + j == slot < slots && j <= ratio[i]
        decreases |ratio| - i
      {
        assert Prefix(ratio, i + 1) == slot;
        j := 0;
        i := i + 1;
      }
      cache[slot] := i;
      j, slot := j + 1, slot + 1;
    }
  }

  /** A slot's branch is the only one whose part of the round it lies in. */
  lemma CacheUnique(ratio: seq<nat>, s: nat, i: nat, k: nat)
    requires i < |ratio| && k < |ratio|
    requires Prefix(ratio, i) <= s < Prefix(ratio, i + 1) && Prefix(ratio, k) <= s < Prefix(ratio, k + 1)
    ensures i == k
  {
    if i < k { PrefixOrder(ratio, i + 1, k); }
    if k < i { PrefixOrder(ratio, k + 1, i); }
  }

  /** l has the bytes each branch takes in one round. (The unused parameter keeps this folded.) */
  ghost predicate Sizes(l: seq<nat>, ratio: seq<nat>, size: nat) {
    |l| == |ratio| && forall u: nat :: SizesAt(u, l, ratio, size)
  }

  ghost predicate SizesAt(unused: nat, l: seq<nat>, ratio: seq<nat>, size: nat) {
    |l| == |ratio| && forall i | 0 <= i < |l| :: l[i] == ratio[i] * size
  }

  /**
   * The tapes are all different, have items of one size, and hold the given queues. (The unused
   * parameter keeps this folded.)
   */
  ghost predicate Connected(one: Tape, many: seq<Tape>, queues: seq<seq<byte>>)
    reads one, one.data, many, set t | t in many :: t.data
  {
    forall u: nat :: ConnectedAt(u, one, many, queues)
  }

  ghost predicate ConnectedAt(unused: nat, one: Tape, many: seq<Tape>, queues: seq<seq<byte>>)
    reads one, one.data, many, set t | t in many :: t.data
  {
    && one.Valid() && |queues| == |many|
    && (forall i | 0 <= i < |many| ::
          many[i].Valid() && many[i].dataSize == one.dataSize && many[i] != one && many[i].data != one.data
              && many[i].bytes == queues[i])
    && (forall i, j | 0 <= i < j < |many| :: many[i] != many[j] && many[i].data != many[j].data)
  }

  /** One branch of the splitter: up to two single items, or a block. */
  method SplitBranch(input: Tape, output: Tape, ratio: nat)
    requires Movable(input, output, ratio * input.dataSize)
    modifies input`readPos, input`bytes, output`writePos, output`bytes, output.data
    ensures input.Valid() && output.Valid()
    ensures input.bytes == old(input.bytes)[ratio * input.dataSize..]
    ensures output.bytes == old(output.bytes) + old(input.bytes)[..ratio * input.dataSize]
  {
    ghost var size, was, out := input.dataSize, input.bytes, output.bytes;
    if ratio < 3 {
      if ratio == 2 {
        assert 2 * size == size + size;
        MoveItem(input, output);
        MoveItem(input, output);
        assert out + was[..size] + was[size..][..size] == out + was[..2 * size];
      } else if ratio == 1 {
        assert 1 * size == size;
        MoveItem(input, output);
      } else {
        assert 0 * size == 0;
      }
    } else {
      MoveItems(input, output, ratio);
    }
  }

  /** Every tape has room for its part of a round. */
  ghost predicate Room(tapes: seq<Tape>, q: seq<seq<byte>>, l: seq<nat>) {
    forall u: nat :: RoomAt(u, tapes, q, l)
  }

  ghost predicate RoomAt(unused: nat, tapes: seq<Tape>, q: seq<seq<byte>>, l: seq<nat>) {
    |tapes| == |q| == |l| && forall i | 0 <= i < |tapes| :: |q[i]| + l[i] <= tapes[i].data.Length
  }

  /** ... on tape n of the splitter's; m is the branch's size in bytes. */
  method SplitNth(input: Tape, tapes: seq<Tape>, n: nat, ratios: seq<nat>, ghost l: seq<nat>,
                  ghost full: seq<seq<byte>>,
                  ghost q: seq<seq<byte>>, ghost m: nat)
    requires n < |tapes| == |l| == |q| && Connected(input, tapes, q) && Sizes(l, ratios, input.dataSize) && m == l[n]
    requires m <= |input.bytes| && |full| == |q| && q[n] == full[n] && Room(tapes, full, l)
    modifies input, tapes, set t | t in tapes :: t.data
    ensures Connected(input, tapes, q[n := q[n] + old(input.bytes)[..m]]) && input.bytes == old(input.bytes)[m..]
  {
    assert ConnectedAt(0, input, tapes, q) && RoomAt(0, tapes, full, l);
    assert SizesAt(0, l, ratios, input.dataSize);
    SplitBranch(input, tapes[n], ratios[n]);
    assert ConnectedAt(0, input, tapes, q[n := q[n] + old(input.bytes)[..m]]);
  }

  lemma NextChunk<T>(l: seq<nat>, input: seq<T>, n: nat)
    requires n < |l| && Total(l) <= |input|
    ensures Prefix(l, n) <= Prefix(l, n + 1) <= |input| && l[n] <= |input| - Prefix(l, n)
    ensures input[Prefix(l, n)..][..l[n]] == Chunk(l, input, n)
    ensures input[Prefix(l, n)..][l[n]..] == input[Prefix(l, n + 1)..]
  {
    PrefixOrder(l, n + 1, |l|);
  }

  /** The first n branches have got their part. */
  ghost function Mixed<T>(goals: seq<T>, q: seq<T>, n: nat): (r: seq<T>)
    requires |goals| == |q| && n <= |q|
    ensures |r| == |q|
  {
    goals[..n] + q[n..]
  }

  lemma MixedEnds<T>(goals: seq<T>, q: seq<T>)
    requires |goals| == |q|
    ensures Mixed(goals, q, 0) == q && Mixed(goals, q, |q|) == goals
  {
  }

  lemma MixedStep<T>(goals: seq<T>, q: seq<T>, n: nat)
    requires |goals| == |q| && n < |q|
    ensures Mixed(goals, q, n)[n] == q[n] && Mixed(goals, q, n)[n := goals[n]] == Mixed(goals, q, n + 1)
  {
  }

  /** One round of the splitter; l has the branches' sizes in bytes, q what they hold. */
  method RunSplitter(input: Tape, tapes: seq<Tape>, ratios: seq<nat>, ghost l: seq<nat>, ghost q: seq<seq<byte>>)
    requires |tapes| == |ratios| == |q| && Connected(input, tapes, q) && Sizes(l, ratios, input.dataSize)
    requires Total(l) <= |input.bytes| && Room(tapes, q, l)
    modifies input, tapes, set t | t in tapes :: t.data
    ensures Connected(input, tapes, Split(l, old(input.bytes), q))
    ensures input.bytes == old(input.bytes)[Total(l)..]
  {
    ghost var was, goals := input.bytes, Split(l, input.bytes, q);
    var n := 0;
    MixedEnds(goals, q);
    while n < |tapes|
      invariant 0 <= n <= |tapes| && Connected(input, tapes, Mixed(goals, q, n))
      invariant Prefix(l, n) <= |was| && input.bytes == was[Prefix(l, n)..]
    {
      NextChunk(l, was, n);
      MixedStep(goals, q, n);
      SplitNth(input, tapes, n, ratios, l, q, Mixed(goals, q, n), l[n]);
      n := n + 1;
    }
  }

  /** The first i branches have been joined, and b bytes of branch i. */
  ghost function Partly<T>(goals: seq<seq<T>>, q: seq<seq<T>>, i: nat, b: nat): (r: seq<seq<T>>)
    requires |goals| == |q| && i < |q| && b <= |q[i]|
    ensures |r| == |q|
  {
    Mixed(goals, q, i)[i := q[i][b..]]
  }

  lemma PartlyStarts<T>(goals: seq<seq<T>>, q: seq<seq<T>>, i: nat)
    requires |goals| == |q| && i < |q|
    ensures Partly(goals, q, i, 0) == Mixed(goals, q, i)
  {
  }

  lemma PartlySteps<T>(goals: seq<seq<T>>, q: seq<seq<T>>, i: nat, b: nat, n: nat)
    requires |goals| == |q| && i < |q| && b + n <= |q[i]|
    ensures Partly(goals, q, i, b)[i] == q[i][b..]
    ensures Partly(goals, q, i, b)[i := q[i][b..][n..]] == Partly(goals, q, i, b + n)
    ensures q[i][..b] + q[i][b..][..n] == q[i][..b + n]
  {
  }

  lemma PartlyEnds<T>(l: seq<nat>, q: seq<seq<T>>, i: nat)
    requires Full(l, q) && i < |q|
    ensures Partly(Rest(l, q), q, i, l[i]) == Mixed(Rest(l, q), q, i + 1)
    ensures Gather(l, q, i) + q[i][..l[i]] == Gather(l, q, i + 1)
  {
  }

  /** Where the joiner stands: branch i has given j items, which are b bytes. */
  datatype Cursor = Cursor(i: nat, j: nat, b: nat) {
    ghost predicate Valid(ratios: seq<nat>, l: seq<nat>, size: nat, slot: nat) {
      |l| == |ratios| && i <= |l| && (i < |l| ==> b <= l[i]) && forall u: nat :: ValidAt(u, ratios, l, size, slot)
    }

    ghost predicate ValidAt(unused: nat, ratios: seq<nat>, l: seq<nat>, size: nat, slot: nat) {
      && |l| == |ratios| && i <= |l|
      && (if i < |l| then j <= ratios[i] && Prefix(ratios, i) + j == slot else Total(ratios) == slot)
      && (i < |l| ==> b == j * size)
    }

    /** What the branches hold. */
    ghost function Held(l: seq<nat>, q: seq<seq<byte>>): (r: seq<seq<byte>>)
      requires Full(l, q) && (i < |l| ==> b <= l[i])
      ensures |r| == |q|
    {
      if i < |l| then Partly(Rest(l, q), q, i, b) else Rest(l, q)
    }

    /** What has been put out. */
    ghost function Joined(l: seq<nat>, q: seq<seq<byte>>): seq<byte>
      requires Full(l, q) && (i < |l| ==> b <= l[i])
    {
      if i < |l| then Gather(l, q, i) + q[i][..b] else Gather(l, q, |l|)
    }

    /** Past the branches that have given all their items. */
    ghost function Skipped(ratios: seq<nat>): Cursor
      decreases |ratios| - i
    {
      if i < |ratios| && j == ratios[i] then Cursor(i + 1, 0, 0).Skipped(ratios) else this
    }
  }

  lemma NextBranchValid(c: Cursor, ratios: seq<nat>, l: seq<nat>, size: nat, slot: nat)
    requires c.Valid(ratios, l, size, slot) && Sizes(l, ratios, size) && c.i < |ratios| && c.j == ratios[c.i]
    ensures Cursor(c.i + 1, 0, 0).Valid(ratios, l, size, slot) && c.b == l[c.i]
  {
    assert c.ValidAt(0, ratios, l, size, slot) && SizesAt(0, l, ratios, size);
    assert Prefix(ratios, c.i + 1) == slot;
    assert 0 * size == 0;
  }

  /** A branch that has given all its items is left for the next one. */
  lemma BranchDone(c: Cursor, ratios: seq<nat>, l: seq<nat>, size: nat, slot: nat, q: seq<seq<byte>>)
    requires c.Valid(ratios, l, size, slot) && Sizes(l, ratios, size) && Full(l, q) && c.i < |ratios|
             && c.j == ratios[c.i]
    ensures var d := Cursor(c.i + 1, 0, 0);
      d.Valid(ratios, l, size, slot) && d.Held(l, q) == c.Held(l, q) && d.Joined(l, q) == c.Joined(l, q)
  {
    NextBranchValid(c, ratios, l, size, slot);
    HeldNext(l, q, c.i);
    JoinedNext(l, q, c.i);
  }

  lemma HeldNext(l: seq<nat>, q: seq<seq<byte>>, i: nat)
    requires Full(l, q) && i < |l|
    ensures Cursor(i + 1, 0, 0).Held(l, q) == Partly(Rest(l, q), q, i, l[i])
  {
    PartlyEnds(l, q, i);
    if i + 1 < |l| { PartlyStarts(Rest(l, q), q, i + 1); } else { MixedEnds(Rest(l, q), q); }
  }

  lemma JoinedNext(l: seq<nat>, q: seq<seq<byte>>, i: nat)
    requires Full(l, q) && i < |l|
    ensures Cursor(i + 1, 0, 0).Joined(l, q) == Gather(l, q, i) + q[i][..l[i]]
  {
  }

  /** Skipping changes neither what is held nor what is put out, and stops at the slot's branch. */
  lemma {:induction false} SkipKeeps(c: Cursor, ratios: seq<nat>, l: seq<nat>, size: nat, slot: nat, q: seq<seq<byte>>)
    requires c.Valid(ratios, l, size, slot) && Sizes(l, ratios, size) && Full(l, q)
    ensures c.Skipped(ratios).Valid(ratios, l, size, slot)
    ensures c.Skipped(ratios).Held(l, q) == c.Held(l, q) && c.Skipped(ratios).Joined(l, q) == c.Joined(l, q)
    ensures c.Skipped(ratios).i < |l| ==> c.Skipped(ratios).j < ratios[c.Skipped(ratios).i]
    decreases |ratios| - c.i
  {
    assert c.ValidAt(0, ratios, l, size, slot);
    if c.i < |ratios| && c.j == ratios[c.i] {
      BranchDone(c, ratios, l, size, slot, q);
      SkipKeeps(Cursor(c.i + 1, 0, 0), ratios, l, size, slot, q);
    }
  }

  lemma ItemValid(c: Cursor, ratios: seq<nat>, l: seq<nat>, size: nat, slot: nat)
    requires c.Valid(ratios, l, size, slot) && Sizes(l, ratios, size) && c.i < |l| && c.j < ratios[c.i]
    ensures c.b + size <= l[c.i] && Cursor(c.i, c.j + 1, c.b + size).Valid(ratios, l, size, slot + 1)
  {
    assert SizesAt(0, l, ratios, size) && c.ValidAt(0, ratios, l, size, slot);
    ItemFits(c.j, ratios[c.i], size);
  }

  /** n more bytes of branch i. */
  lemma BytesGiven(l: seq<nat>, q: seq<seq<byte>>, c: Cursor, n: nat, d: Cursor)
    requires Full(l, q) && c.i < |l| && c.b + n <= l[c.i] && d.i == c.i && d.b == c.b + n
    ensures n <= |c.Held(l, q)[c.i]| && d.Held(l, q) == c.Held(l, q)[c.i := c.Held(l, q)[c.i][n..]]
    ensures d.Joined(l, q) == c.Joined(l, q) + c.Held(l, q)[c.i][..n]
  {
    var i := c.i;
    PartlySteps(Rest(l, q), q, i, c.b, n);
    ConcatAssociates(Gather(l, q, i), q[i][..c.b], q[i][c.b..][..n]);
  }

  lemma JoinedFits(l: seq<nat>, q: seq<seq<byte>>, d: Cursor)
    requires Full(l, q) && d.i < |l| && d.b <= l[d.i]
    ensures |d.Joined(l, q)| <= Total(l)
  {
    GatherLength(l, q, d.i);
    PrefixOrder(l, d.i + 1, |l|);
  }

  /** One more item of the current branch. */
  lemma ItemGiven(c: Cursor, ratios: seq<nat>, l: seq<nat>, size: nat, slot: nat, q: seq<seq<byte>>, d: Cursor)
    requires c.Valid(ratios, l, size, slot) && Sizes(l, ratios, size) && Full(l, q) && c.i < |l| && c.j < ratios[c.i]
    requires d == Cursor(c.i, c.j + 1, c.b + size)
    ensures d.Valid(ratios, l, size, slot + 1) && size <= |c.Held(l, q)[c.i]|
    ensures d.Held(l, q) == c.Held(l, q)[c.i := c.Held(l, q)[c.i][size..]]
    ensures d.Joined(l, q) == c.Joined(l, q) + c.Held(l, q)[c.i][..size] && |d.Joined(l, q)| <= Total(l)
  {
    ItemValid(c, ratios, l, size, slot);
    BytesGiven(l, q, c, size, d);
    JoinedFits(l, q, d);
  }

  lemma ItemFits(j: nat, ratio: nat, size: nat)
    requires j < ratio
    ensures (j + 1) * size == j * size + size && (j + 1) * size <= ratio * size
  {
  }

  /** The joiner's next item comes from tape k. */
  method JoinNth(output: Tape, tapes: seq<Tape>, k: nat, ghost q: seq<seq<byte>>, ghost size: nat)
    requires k < |tapes| == |q| && Connected(output, tapes, q) && size == output.dataSize
    requires size <= |q[k]| && |output.bytes| + size <= output.data.Length
    modifies output, output.data, tapes
    ensures Connected(output, tapes, q[k := q[k][size..]])
    ensures output.bytes == old(output.bytes) + q[k][..size]
  {
    assert ConnectedAt(0, output, tapes, q);
    MoveItem(tapes[k], output);
    assert ConnectedAt(0, output, tapes, q[k := q[k][size..]]);
  }

  /** One slot of the joiner. */
  method JoinSlot(output: Tape, tapes: seq<Tape>, k: nat, ghost slot: nat, ghost ratios: seq<nat>, ghost l: seq<nat>,
                  ghost q: seq<seq<byte>>, ghost was: seq<byte>, ghost c: Cursor)
    returns (ghost d: Cursor)
    requires k < |tapes| == |ratios| == |q| && Sizes(l, ratios, output.dataSize) && Full(l, q)
    requires c.Valid(ratios, l, output.dataSize, slot) && c.i == k && c.j < ratios[k]
    requires Connected(output, tapes, c.Held(l, q)) && output.bytes == was + c.Joined(l, q)
    requires |was| + Total(l) <= output.data.Length
    modifies output, output.data, tapes
    ensures d.Valid(ratios, l, output.dataSize, slot + 1)
    ensures Connected(output, tapes, d.Held(l, q)) && output.bytes == was + d.Joined(l, q)
  {
    ghost var size, held, joined := output.dataSize, c.Held(l, q), c.Joined(l, q);
    d := Cursor(c.i, c.j + 1, c.b + size);
    ItemGiven(c, ratios, l, size, slot, q, d);
    ConcatAssociates(was, joined, held[k][..size]);
    JoinNth(output, tapes, k, held, size);
  }

  /** One slot of the joiner, which belongs to branch k. */
  method JoinNext(output: Tape, tapes: seq<Tape>, k: nat, ghost slot: nat, ghost ratios: seq<nat>, ghost l: seq<nat>,
                  ghost q: seq<seq<byte>>, ghost was: seq<byte>, ghost c: Cursor)
    returns (ghost d: Cursor)
    requires k < |tapes| == |ratios| == |q| && Sizes(l, ratios, output.dataSize) && Full(l, q)
    requires c.Valid(ratios, l, output.dataSize, slot) && Prefix(ratios, k) <= slot < Prefix(ratios, k + 1)
    requires Connected(output, tapes, c.Held(l, q)) && output.bytes == was + c.Joined(l, q)
    requires |was| + Total(l) <= output.data.Length
    modifies output, output.data, tapes
    ensures d.Valid(ratios, l, output.dataSize, slot + 1)
    ensures Connected(output, tapes, d.Held(l, q)) && output.bytes == was + d.Joined(l, q)
  {
    ghost var size, at := output.dataSize, c.Skipped(ratios);
    SkipKeeps(c, ratios, l, size, slot, q);
    PrefixOrder(ratios, k + 1, |ratios|);
    CurrentBranch(at, ratios, l, size, slot, k);
    d := JoinSlot(output, tapes, k, slot, ratios, l, q, was, at);
  }

  /** One round of the joiner, slot by slot; l has the branches' sizes in bytes, q what they hold. */
  method RunJoiner(output: Tape, tapes: seq<Tape>, cache: array<nat>, ghost ratios: seq<nat>, ghost l: seq<nat>,
                   ghost q: seq<seq<byte>>)
    requires |tapes| == |ratios| == |q| && Connected(output, tapes, q) && Sizes(l, ratios, output.dataSize)
             && Full(l, q)
    requires cache.Length == Total(ratios) && |output.bytes| + Total(l) <= output.data.Length
    requires forall s | 0 <= s < cache.Length ::
               cache[s] < |ratios| && Prefix(ratios, cache[s]) <= s < Prefix(ratios, cache[s] + 1)
    modifies output, output.data, tapes
    ensures Connected(output, tapes, Rest(l, q))
    ensures output.bytes == old(output.bytes) + Gather(l, q, |l|)
  {
    ghost var was, size := output.bytes, output.dataSize;
    ghost var c := Cursor(0, 0, 0);
    Beginning(ratios, l, size, q);
    var slot := 0;
    while slot < cache.Length
      invariant 0 <= slot <= cache.Length && c.Valid(ratios, l, size, slot)
      invariant Connected(output, tapes, c.Held(l, q)) && output.bytes == was + c.Joined(l, q)
    {
      c := JoinNext(output, tapes, cache[slot], slot, ratios, l, q, was, c);
      slot := slot + 1;
    }
    SkipKeeps(c, ratios, l, size, slot, q);
    AllJoined(c.Skipped(ratios), ratios, l, size);
  }

  /** The slot's branch is the one the joiner stands at. */
  lemma CurrentBranch(c: Cursor, ratios: seq<nat>, l: seq<nat>, size: nat, slot: nat, k: nat)
    requires c.Valid(ratios, l, size, slot) && slot < Total(ratios) && (c.i < |l| ==> c.j < ratios[c.i])
    requires k < |ratios| && Prefix(ratios, k) <= slot < Prefix(ratios, k + 1)
    ensures c.i == k
  {
    assert c.ValidAt(0, ratios, l, size, slot);
    CacheUnique(ratios, slot, c.i, k);
  }

  lemma Beginning(ratios: seq<nat>, l: seq<nat>, size: nat, q: seq<seq<byte>>)
    requires Full(l, q) && |l| == |ratios|
    ensures Cursor(0, 0, 0).Valid(ratios, l, size, 0)
    ensures Cursor(0, 0, 0).Held(l, q) == q && Cursor(0, 0, 0).Joined(l, q) == []
  {
  }

  /** After all slots no branch is left. */
  lemma AllJoined(c: Cursor, ratios: seq<nat>, l: seq<nat>, size: nat)
    requires c.Valid(ratios, l, size, Total(ratios)) && (c.i < |l| ==> c.j < ratios[c.i])
    ensures c.i == |l|
  {
    assert c.ValidAt(0, ratios, l, size, Total(ratios));
    if c.i < |l| { PrefixOrder(ratios, c.i + 1, |ratios|); }
  }
}
