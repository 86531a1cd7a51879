/**
 * producer2 and consumer2 on the two sides of a memory socket, in one run: the producer writes items
 * into the block it holds, the consumer reads them from the block it holds, and the steps of both and of
 * the socket are taken in any order.
 */
module StreamRuns {
  import opened BlockStreams
  import opened Channels
  import opened MemSockets
  import opened Seqs

  /** offs and got count the items written to and read from the block each side holds. */
  datatype System<!T> =
    System(length: nat, sock: State<seq<T>>, offs: nat, pushed: seq<T>, got: nat, popped: seq<T>)

  datatype Act<T> = PushItem(item: T) | FlushBlock | PopItem | Socket(step: Step<seq<T>>)

  ghost function Mine<T>(s: System<T>): seq<T>
    requires HandsOk(s.sock) && s.sock.p.Filling?
  {
    s.sock.store(s.sock.blocks.producer[0])
  }

  ghost function Theirs<T>(s: System<T>): seq<T>
    requires HandsOk(s.sock) && s.sock.c.Reading?
  {
    s.sock.store(s.sock.blocks.consumer[0])
  }

  /** A block is handed over when it is full, or flushed, and given back when it has been read. */
  ghost predicate CanAct<T>(s: System<T>, a: Act<T>) {
    HandsOk(s.sock) &&
    match a
    case PushItem(_) => s.sock.p.Filling? && s.offs < s.length == |Mine(s)|
    case FlushBlock => s.sock.p.Filling? && 0 < s.offs < s.length == |Mine(s)|
    case PopItem => s.sock.c.Reading? && s.got < s.length == |Theirs(s)|
    case Socket(e) =>
      && Enabled(s.sock, e) && !e.Fill?
      && (e.DoneFilling? ==> s.offs == s.length) && (e.DoneReading? ==> s.got == s.length)
  }

  ghost function Acted<T>(s: System<T>, a: Act<T>): System<T>
    requires CanAct(s, a)
  {
    match a
    case PushItem(x) =>
      s.(sock := MemSockets.After(s.sock, Fill(Mine(s)[s.offs := x])), offs := s.offs + 1, pushed := s.pushed + [x])
    case FlushBlock => s.(offs := s.length, pushed := s.pushed + Mine(s)[s.offs..])
    case PopItem => s.(got := s.got + 1, popped := s.popped + [Theirs(s)[s.got]])
    case Socket(e) =>
      s.(sock := MemSockets.After(s.sock, e), offs := if e.UnlockTaken? then 0 else s.offs,
         got := if e.UnlockPop? then 0 else s.got)
  }

  ghost predicate Begins<T>(s: System<T>) {
    && s.length > 0 && Init(s.sock) && s.offs == s.got == 0 && s.pushed == s.popped == []
    && forall b :: |s.sock.store(b)| == s.length
  }

  ghost predicate Acts<T>(s: System<T>, acts: seq<Act<T>>, end: System<T>)
    decreases |acts|
  {
    if |acts| == 0 then end == s else CanAct(s, acts[0]) && Acts(Acted(s, acts[0]), acts[1..], end)
  }

  // ---- What every act keeps ----

  /** What the producer has written since the last block was sent. */
  ghost function Part<T>(s: System<T>): seq<T>
    requires HandsOk(s.sock)
  {
    if s.sock.p.Filling? || s.sock.p.WantPush? || s.sock.p.Pushing? then
      var b := s.sock.store(s.sock.blocks.producer[0]); if s.offs <= |b| then b[..s.offs] else b
    else []
  }

  /** What the consumer has still to read of the last block received. */
  ghost function Rest<T>(s: System<T>): seq<T>
    requires HandsOk(s.sock)
  {
    if s.sock.c.TookPop? then s.sock.store(s.sock.blocks.consumer[0])
    else if s.sock.c.Reading? then
      var b := s.sock.store(s.sock.blocks.consumer[0]); if s.got <= |b| then b[s.got..] else []
    else []
  }

  ghost predicate SidesOk<T>(s: System<T>) {
    && s.length > 0 && s.offs <= s.length && s.got <= s.length
    && (s.sock.p.WantPush? || s.sock.p.Pushing? ==> s.offs == s.length)
    && forall b :: |s.sock.store(b)| == s.length
  }

  ghost predicate StreamsOk<T>(s: System<T>)
    requires HandsOk(s.sock)
  {
    && s.pushed == Flatten(s.sock.chan.sent) + Part(s)
    && s.popped + Rest(s) == Flatten(s.sock.chan.received)
  }

  ghost predicate Kept<T>(s: System<T>) {
    MemSockets.Inv(s.sock) && SidesOk(s) && StreamsOk(s)
  }

  lemma BeginKept<T>(s: System<T>)
    requires Begins(s)
    ensures Kept(s)
  {
    MemSockets.InitInv(s.sock);
  }

  lemma SidesKeep<T>(s: System<T>, a: Act<T>)
    requires MemSockets.Inv(s.sock) && SidesOk(s) && CanAct(s, a)
    ensures SidesOk(Acted(s, a))
  {
  }

  lemma SockKeeps<T>(s: System<T>, a: Act<T>)
    requires MemSockets.Inv(s.sock) && CanAct(s, a)
    ensures MemSockets.Inv(Acted(s, a).sock)
  {
    match a {
      case PushItem(x) => MemSockets.StepInv(s.sock, Fill(Mine(s)[s.offs := x]));
      case Socket(e) => MemSockets.StepInv(s.sock, e);
      case _ =>
    }
  }

  lemma ItemPushed<T>(s: System<T>, x: T)
    requires CanAct(s, PushItem(x)) && HandsOk(Acted(s, PushItem(x)).sock) && BlocksOk(s.sock.blocks) && StreamsOk(s)
    ensures StreamsOk(Acted(s, PushItem(x)))
  {
    var s' := Acted(s, PushItem(x));
    HandApart(s.sock.blocks);
    assert s'.sock.blocks == s.sock.blocks && s'.sock.chan == s.sock.chan;
    assert Part(s') == Part(s) + [x];
    assert Rest(s') == Rest(s);
    ConcatAssociates(Flatten(s.sock.chan.sent), Part(s), [x]);
  }

  lemma BlockFlushed<T>(s: System<T>)
    requires CanAct(s, FlushBlock) && HandsOk(s.sock) && StreamsOk(s)
    ensures StreamsOk(Acted(s, FlushBlock))
  {
    assert Part(Acted(s, FlushBlock)) == Part(s) + Mine(s)[s.offs..];
    ConcatAssociates(Flatten(s.sock.chan.sent), Part(s), Mine(s)[s.offs..]);
  }

  lemma ItemPopped<T>(s: System<T>)
    requires CanAct(s, PopItem) && HandsOk(s.sock) && StreamsOk(s)
    ensures StreamsOk(Acted(s, PopItem))
  {
    var s' := Acted(s, PopItem);
    assert Rest(s) == [Theirs(s)[s.got]] + Rest(s');
    ConcatAssociates(s.popped, [Theirs(s)[s.got]], Rest(s'));
  }

  lemma BlockSent<T>(s: System<T>)
    requires CanAct(s, Socket(Push)) && HandsOk(Acted(s, Socket(Push)).sock) && SidesOk(s) && StreamsOk(s)
    ensures StreamsOk(Acted(s, Socket(Push)))
  {
    var block := s.sock.store(s.sock.blocks.producer[0]);
    assert Part(s) == block;
    FlattenSnoc(s.sock.chan.sent, block);
  }

  lemma BlockReceived<T>(s: System<T>)
    requires CanAct(s, Socket(TakePop)) && HandsOk(Acted(s, Socket(TakePop)).sock) && StreamsOk(s)
    ensures StreamsOk(Acted(s, Socket(TakePop)))
  {
    FlattenSnoc(s.sock.chan.received, s.sock.store(s.sock.blocks.data[0]));
  }

  /** The other steps of the socket move nothing. */
  lemma NothingMoved<T>(s: System<T>, e: Step<seq<T>>)
    requires CanAct(s, Socket(e)) && HandsOk(Acted(s, Socket(e)).sock) && SidesOk(s) && StreamsOk(s)
    requires !e.Push? && !e.TakePop?
    ensures StreamsOk(Acted(s, Socket(e)))
  {
    var s' := Acted(s, Socket(e));
    assert s'.sock.store == s.sock.store && s'.sock.chan == s.sock.chan;
    PartStays(s, e);
    RestStays(s, e);
  }

  lemma PartStays<T>(s: System<T>, e: Step<seq<T>>)
    requires CanAct(s, Socket(e)) && !e.Push? && HandsOk(Acted(s, Socket(e)).sock)
    ensures Part(Acted(s, Socket(e))) == Part(s)
  {
  }

  lemma RestStays<T>(s: System<T>, e: Step<seq<T>>)
    requires SidesOk(s) && CanAct(s, Socket(e)) && !e.TakePop? && HandsOk(Acted(s, Socket(e)).sock)
    ensures Rest(Acted(s, Socket(e))) == Rest(s)
  {
  }

  lemma SocketMoved<T>(s: System<T>, e: Step<seq<T>>)
    requires CanAct(s, Socket(e)) && HandsOk(Acted(s, Socket(e)).sock) && SidesOk(s) && StreamsOk(s)
    ensures StreamsOk(Acted(s, Socket(e)))
  {
    if e.Push? {
      BlockSent(s);
    } else if e.TakePop? {
      BlockReceived(s);
    } else {
      NothingMoved(s, e);
    }
  }

  lemma StreamsKeep<T>(s: System<T>, a: Act<T>)
    requires Kept(s) && CanAct(s, a)
    ensures HandsOk(Acted(s, a).sock) && StreamsOk(Acted(s, a))
  {
    SockKeeps(s, a);
    match a {
      case PushItem(x) => ItemPushed(s, x);
      case FlushBlock => BlockFlushed(s);
      case PopItem => ItemPopped(s);
      case Socket(e) => SocketMoved(s, e);
    }
  }

  lemma ActKeeps<T>(s: System<T>, a: Act<T>)
    requires Kept(s) && CanAct(s, a)
    ensures Kept(Acted(s, a))
  {
    SockKeeps(s, a);
    SidesKeep(s, a);
    StreamsKeep(s, a);
  }

  lemma {:induction false} ActsKeep<T>(s: System<T>, acts: seq<Act<T>>, end: System<T>)
    requires Kept(s) && Acts(s, acts, end)
    ensures Kept(end)
    decreases |acts|
  {
    if |acts| > 0 {
      ActKeeps(s, acts[0]);
      ActsKeep(Acted(s, acts[0]), acts[1..], end);
    }
  }

  /**
   * In every interleaving the items popped are the first ones pushed, flushed blocks with their padding;
   * the rest is in blocks on their way, in the consumer's block or in the producer's.
   */
  lemma PoppedIsPushed<T>(s: System<T>, acts: seq<Act<T>>, end: System<T>)
    requires Begins(s) && Acts(s, acts, end)
    ensures HandsOk(end.sock) && |end.sock.chan.received| <= |end.sock.chan.sent|
    ensures |end.popped| <= |end.pushed| && end.pushed[..|end.popped|] == end.popped
    ensures end.pushed == end.popped + Rest(end) + Flatten(end.sock.chan.sent[|end.sock.chan.received|..]) + Part(end)
  {
    BeginKept(s);
    ActsKeep(s, acts, end);
    var sent, k := end.sock.chan.sent, |end.sock.chan.received|;
    assert sent == sent[..k] + sent[k..];
    FlattenConcat(sent[..k], sent[k..]);
  }
}
