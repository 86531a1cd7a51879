/**
 * The memory socket with a free list and a data queue, each under its own mutex with its own condition
 * variable. One producer and one consumer take steps in any order; a sleeper may wake for no reason.
 */
module MemSockets {
  import opened Channels

  datatype Owner = NoOne | TheProducer | TheConsumer

  /** Where the producer is: in get_free_buffer, filling its block, or in push_buffer. */
  datatype Producer =
    WantFree | CheckFree | SleepFree | WokenFree | TookFree | Filling | WantPush | Pushing | Pushed | SignalledPush

  /** Where the consumer is: in pop_buffer, reading its block, or in release_buffer. */
  datatype Consumer =
    WantPop | CheckPop | SleepPop | WokenPop | TookPop | Reading | WantRelease | Releasing | Released | SignalledRelease

  /** The two queues and what each thread holds; blocks has all blocks ever allocated. */
  datatype Blocks = Blocks(free: seq<nat>, data: seq<nat>, producer: seq<nat>, consumer: seq<nat>, all: set<nat>) {
    ghost function Everywhere(): multiset<nat> {
      multiset(free) + multiset(data) + multiset(producer) + multiset(consumer)
    }
  }

  /** sent and received record the payloads pushed and popped. */
  datatype State<V> = State(
    p: Producer, c: Consumer, freeLock: Owner, queueLock: Owner,
    blocks: Blocks, store: nat -> V, chan: Channel<V>)

  datatype Step<V> =
    | LockFree | WaitFree | TakeFree | UnlockTaken | Fill(payload: V) | DoneFilling
    | LockPush | Push | SignalPush | UnlockPush
    | LockPop | WaitPop | TakePop | UnlockPop | DoneReading
    | LockRelease | Release | SignalRelease | UnlockRelease
    | SpuriousProducer | SpuriousConsumer | Allocate(more: seq<nat>)

  ghost function SetOf(s: seq<nat>): set<nat> { set b | b in s }

  ghost predicate Distinct(s: seq<nat>) {
    forall i, j | 0 <= i < j < |s| :: s[i] != s[j]
  }

  ghost predicate Enabled<V>(s: State<V>, e: Step<V>) {
    match e
    case LockFree => (s.p.WantFree? || s.p.WokenFree?) && s.freeLock.NoOne?
    case WaitFree => s.p.CheckFree? && s.blocks.free == []
    case TakeFree => s.p.CheckFree? && s.blocks.free != []
    case UnlockTaken => s.p.TookFree?
    case Fill(_) => s.p.Filling?
    case DoneFilling => s.p.Filling?
    case LockPush => s.p.WantPush? && s.queueLock.NoOne?
    case Push => s.p.Pushing?
    case SignalPush => s.p.Pushed?
    case UnlockPush => s.p.SignalledPush?
    case LockPop => (s.c.WantPop? || s.c.WokenPop?) && s.queueLock.NoOne?
    case WaitPop => s.c.CheckPop? && s.blocks.data == []
    case TakePop => s.c.CheckPop? && s.blocks.data != []
    case UnlockPop => s.c.TookPop?
    case DoneReading => s.c.Reading?
    case LockRelease => s.c.WantRelease? && s.freeLock.NoOne?
    case Release => s.c.Releasing?
    case SignalRelease => s.c.Released?
    case UnlockRelease => s.c.SignalledRelease?
    case SpuriousProducer => s.p.SleepFree?
    case SpuriousConsumer => s.c.SleepPop?
    case Allocate(more) => s.freeLock.NoOne? && Distinct(more) && forall b | b in more :: b !in s.blocks.all
  }

  /** A thread holds a block exactly between taking it and passing it on. */
  ghost predicate HandsOk<V>(s: State<V>) {
    && |s.blocks.producer| == (if s.p.TookFree? || s.p.Filling? || s.p.WantPush? || s.p.Pushing? then 1 else 0)
    && |s.blocks.consumer| == (if s.c.TookPop? || s.c.Reading? || s.c.WantRelease? || s.c.Releasing? then 1 else 0)
  }

  ghost function WakeProducer(p: Producer): Producer { if p.SleepFree? then WokenFree else p }

  ghost function WakeConsumer(c: Consumer): Consumer { if c.SleepPop? then WokenPop else c }

  ghost function BlocksAfter<V>(b: Blocks, e: Step<V>): Blocks
    requires e.TakeFree? ==> b.free != []
    requires e.TakePop? ==> b.data != []
  {
    match e
    case TakeFree => b.(producer := [b.free[0]], free := b.free[1..])
    case Push => b.(data := b.data + b.producer, producer := [])
    case TakePop => b.(consumer := [b.data[0]], data := b.data[1..])
    case Release => b.(free := b.free + b.consumer, consumer := [])
    case Allocate(more) => b.(free := b.free + more, all := b.all + SetOf(more))
    case _ => b
  }

  /** What the blocks contain: the producer writes its own block. */
  ghost function StoreAfter<V>(s: State<V>, e: Step<V>): nat -> V
    requires HandsOk(s) && Enabled(s, e)
  {
    match e
    case Fill(v) => (b: nat) => if b == s.blocks.producer[0] then v else s.store(b)
    case _ => s.store
  }

  ghost function ChannelAfter<V>(s: State<V>, e: Step<V>): Channel<V>
    requires HandsOk(s) && Enabled(s, e)
  {
    match e
    case Push => s.chan.(sent := s.chan.sent + [s.store(s.blocks.producer[0])])
    case TakePop => s.chan.(received := s.chan.received + [s.store(s.blocks.data[0])])
    case _ => s.chan
  }

  ghost function After<V>(s: State<V>, e: Step<V>): State<V>
    requires HandsOk(s) && Enabled(s, e)
  {
    var s' := s.(blocks := BlocksAfter(s.blocks, e), store := StoreAfter(s, e), chan := ChannelAfter(s, e));
    match e
    case LockFree => s'.(p := CheckFree, freeLock := TheProducer)
    case WaitFree => s'.(p := SleepFree, freeLock := NoOne)
    case TakeFree => s'.(p := TookFree)
    case UnlockTaken => s'.(p := Filling, freeLock := NoOne)
    case Fill(v) => s'
    case DoneFilling => s'.(p := WantPush)
    case LockPush => s'.(p := Pushing, queueLock := TheProducer)
    case Push => s'.(p := Pushed)
    case SignalPush => s'.(p := SignalledPush, c := WakeConsumer(s.c))
    case UnlockPush => s'.(p := WantFree, queueLock := NoOne)
    case LockPop => s'.(c := CheckPop, queueLock := TheConsumer)
    case WaitPop => s'.(c := SleepPop, queueLock := NoOne)
    case TakePop => s'.(c := TookPop)
    case UnlockPop => s'.(c := Reading, queueLock := NoOne)
    case DoneReading => s'.(c := WantRelease)
    case LockRelease => s'.(c := Releasing, freeLock := TheConsumer)
    case Release => s'.(c := Released)
    case SignalRelease => s'.(c := SignalledRelease, p := WakeProducer(s.p))
    case UnlockRelease => s'.(c := WantPop, freeLock := NoOne)
    case SpuriousProducer => s'.(p := WokenFree)
    case SpuriousConsumer => s'.(c := WokenPop)
    case Allocate(_) => s'.(p := WakeProducer(s.p))
  }

  ghost predicate Init<V>(s: State<V>) {
    s == State(WantFree, WantPop, NoOne, NoOne, Blocks([], [], [], [], {}), s.store, Channel([], []))
  }

  ghost predicate Run<V>(s: State<V>, steps: seq<Step<V>>, end: State<V>)
    decreases |steps|
  {
    if |steps| == 0 then end == s
    else HandsOk(s) && Enabled(s, steps[0]) && Run(After(s, steps[0]), steps[1..], end)
  }

  // ---- What every step keeps ----

  /** Each mutex is held by exactly the thread whose code is inside its section. */
  ghost predicate LocksOk<V>(s: State<V>) {
    FreeLockOk(s.freeLock, s.p, s.c) && QueueLockOk(s.queueLock, s.p, s.c)
  }

  ghost predicate FreeLockOk(lock: Owner, p: Producer, c: Consumer) {
    && (lock.TheProducer? <==> p.CheckFree? || p.TookFree?)
    && (lock.TheConsumer? <==> c.Releasing? || c.Released? || c.SignalledRelease?)
  }

  ghost predicate QueueLockOk(lock: Owner, p: Producer, c: Consumer) {
    && (lock.TheProducer? <==> p.Pushing? || p.Pushed? || p.SignalledPush?)
    && (lock.TheConsumer? <==> c.CheckPop? || c.TookPop?)
  }

  /** Every block is in exactly one of the free list, the data queue and the two hands. */
  ghost predicate BlocksOk(b: Blocks) {
    b.Everywhere() == multiset(b.all)
  }

  /** A sleeper has nothing to take, or a signal for it is on its way. */
  ghost predicate WakeOk<V>(s: State<V>) {
    && (s.p.SleepFree? ==> s.blocks.free == [] || s.c.Released?)
    && (s.c.SleepPop? ==> s.blocks.data == [] || s.p.Pushed?)
  }

  /** The queued blocks hold the payloads not yet received, and the consumer's block the last one received. */
  ghost predicate PayloadsOk<V>(b: Blocks, store: nat -> V, chan: Channel<V>) {
    && Ordered(chan) && |chan.sent| == |chan.received| + |b.data|
    && (forall i | 0 <= i < |b.data| :: store(b.data[i]) == chan.sent[|chan.received| + i])
    && (forall i | 0 <= i < |b.consumer| ::
        |chan.received| > 0 && store(b.consumer[i]) == chan.received[|chan.received| - 1])
  }

  ghost predicate Inv<V>(s: State<V>) {
    HandsOk(s) && LocksOk(s) && BlocksOk(s.blocks) && WakeOk(s) && PayloadsOk(s.blocks, s.store, s.chan)
  }

  lemma InitInv<V>(s: State<V>)
    requires Init(s)
    ensures Inv(s)
  {
  }

  lemma FreeLockKeeps<V>(s: State<V>, e: Step<V>, t: State<V>)
    requires HandsOk(s) && FreeLockOk(s.freeLock, s.p, s.c) && Enabled(s, e) && t == After(s, e)
    ensures FreeLockOk(t.freeLock, t.p, t.c)
  {
  }

  lemma QueueLockKeeps<V>(s: State<V>, e: Step<V>, t: State<V>)
    requires HandsOk(s) && QueueLockOk(s.queueLock, s.p, s.c) && Enabled(s, e) && t == After(s, e)
    ensures QueueLockOk(t.queueLock, t.p, t.c)
  {
  }

  lemma LocksKeep<V>(s: State<V>, e: Step<V>)
    requires HandsOk(s) && LocksOk(s) && Enabled(s, e)
    ensures LocksOk(After(s, e))
  {
    FreeLockKeeps(s, e, After(s, e));
    QueueLockKeeps(s, e, After(s, e));
  }

  lemma WakeKeeps<V>(s: State<V>, e: Step<V>)
    requires HandsOk(s) && LocksOk(s) && WakeOk(s) && Enabled(s, e)
    ensures WakeOk(After(s, e))
  {
  }

  lemma HeadMoves(q: seq<nat>)
    requires q != []
    ensures multiset(q) == multiset([q[0]]) + multiset(q[1..])
  {
    assert q == [q[0]] + q[1..];
  }

  lemma {:induction false} FreshBlocks(blocks: set<nat>, more: seq<nat>)
    requires Distinct(more) && forall b | b in more :: b !in blocks
    ensures multiset(blocks + SetOf(more)) == multiset(blocks) + multiset(more)
    decreases |more|
  {
    if |more| == 0 {
      assert blocks + SetOf(more) == blocks;
      assert multiset(more) == multiset{} && multiset(blocks) + multiset{} == multiset(blocks);
    } else {
      var first, rest := more[0], more[1..];
      HeadMoves(more);
      forall b | b in rest ensures b !in blocks + {first} {
        var i :| 0 <= i < |rest| && rest[i] == b;
        assert more[i + 1] == b;
      }
      FreshBlocks(blocks + {first}, rest);
      assert blocks + SetOf(more) == blocks + {first} + SetOf(rest) by {
        assert forall b | b in more :: b == first || b in rest;
        assert forall b | b in rest :: b in more;
      }
      assert multiset(blocks + {first}) == multiset(blocks) + multiset([first]);
    }
  }

  lemma TakeFreeBlocks<V>(b: Blocks, e: Step<V>)
    requires e.TakeFree? && b.free != [] && b.producer == []
    ensures BlocksAfter(b, e).Everywhere() == b.Everywhere()
  {
    HeadMoves(b.free);
  }

  lemma TakePopBlocks<V>(b: Blocks, e: Step<V>)
    requires e.TakePop? && b.data != [] && b.consumer == []
    ensures BlocksAfter(b, e).Everywhere() == b.Everywhere()
  {
    HeadMoves(b.data);
  }

  lemma GiveBlocks<V>(b: Blocks, e: Step<V>)
    requires e.Push? || e.Release?
    ensures BlocksAfter(b, e).Everywhere() == b.Everywhere()
  {
  }

  lemma AllocateBlocks<V>(b: Blocks, e: Step<V>)
    requires BlocksOk(b) && e.Allocate? && Distinct(e.more) && forall x | x in e.more :: x !in b.all
    ensures BlocksOk(BlocksAfter(b, e))
  {
    FreshBlocks(b.all, e.more);
    assert multiset(b.free + e.more) == multiset(b.free) + multiset(e.more);
  }

  lemma BlocksKeep<V>(s: State<V>, e: Step<V>)
    requires HandsOk(s) && BlocksOk(s.blocks) && Enabled(s, e)
    ensures BlocksOk(After(s, e).blocks)
  {
    if e.TakeFree? {
      TakeFreeBlocks(s.blocks, e);
    } else if e.TakePop? {
      TakePopBlocks(s.blocks, e);
    } else if e.Push? || e.Release? {
      GiveBlocks(s.blocks, e);
    } else if e.Allocate? {
      AllocateBlocks(s.blocks, e);
    }
  }

  lemma HandsKeep<V>(s: State<V>, e: Step<V>)
    requires HandsOk(s) && Enabled(s, e)
    ensures HandsOk(After(s, e))
  {
  }

  /** The producer's block is in no other place. */
  lemma HandApart(b: Blocks)
    requires BlocksOk(b) && |b.producer| == 1
    ensures b.producer[0] !in b.data && b.producer[0] !in b.consumer && b.producer[0] in b.all
  {
    var x := b.producer[0];
    assert b.Everywhere()[x] == multiset(b.all)[x] <= 1;
  }

  lemma FillKeeps<V>(b: Blocks, store: nat -> V, chan: Channel<V>, now: nat -> V)
    requires PayloadsOk(b, store, chan) && BlocksOk(b) && |b.producer| == 1
    requires forall x: nat | x != b.producer[0] :: now(x) == store(x)
    ensures PayloadsOk(b, now, chan)
  {
    HandApart(b);
    assert forall i | 0 <= i < |b.data| :: b.data[i] in b.data;
    assert forall i | 0 <= i < |b.consumer| :: b.consumer[i] in b.consumer;
  }

  /** One block more stands for one message more. */
  lemma DataPushed<V>(data: seq<nat>, store: nat -> V, sent: seq<V>, r: nat, x: nat)
    requires |sent| == r + |data| && forall i | 0 <= i < |data| :: store(data[i]) == sent[r + i]
    ensures forall i | 0 <= i < |data + [x]| :: store((data + [x])[i]) == (sent + [store(x)])[r + i]
  {
  }

  lemma PushKeeps<V>(b: Blocks, store: nat -> V, chan: Channel<V>, b': Blocks, chan': Channel<V>)
    requires PayloadsOk(b, store, chan) && |b.producer| == 1
    requires b' == b.(data := b.data + b.producer, producer := [])
             && chan' == chan.(sent := chan.sent + [store(b.producer[0])])
    ensures PayloadsOk(b', store, chan')
  {
    assert chan'.sent[..|chan.sent|] == chan.sent;
    NextOrdered(chan, chan');
    DataPushed(b.data, store, chan.sent, |chan.received|, b.producer[0]);
    assert b.producer == [b.producer[0]];
  }

  lemma TakePopKeeps<V>(b: Blocks, store: nat -> V, chan: Channel<V>, b': Blocks, chan': Channel<V>)
    requires PayloadsOk(b, store, chan) && b.data != []
    requires b' == b.(consumer := [b.data[0]], data := b.data[1..])
    requires chan' == chan.(received := chan.received + [store(b.data[0])])
    ensures PayloadsOk(b', store, chan')
  {
    assert store(b.data[0]) == chan.sent[|chan.received|];
    assert Next(chan, chan');
    NextOrdered(chan, chan');
    forall i | 0 <= i < |b'.data| ensures store(b'.data[i]) == chan.sent[|chan'.received| + i] {
      assert b'.data[i] == b.data[i + 1];
    }
  }

  lemma PayloadsKeep<V>(s: State<V>, e: Step<V>)
    requires HandsOk(s) && BlocksOk(s.blocks) && PayloadsOk(s.blocks, s.store, s.chan) && Enabled(s, e)
    ensures var s' := After(s, e); PayloadsOk(s'.blocks, s'.store, s'.chan)
  {
    var b, b', store', chan' := s.blocks, BlocksAfter(s.blocks, e), StoreAfter(s, e), ChannelAfter(s, e);
    if e.Fill? {
      FillKeeps(b, s.store, s.chan, store');
    } else if e.Push? {
      PushKeeps(b, s.store, s.chan, b', chan');
    } else if e.TakePop? {
      TakePopKeeps(b, s.store, s.chan, b', chan');
    } else {
      assert b'.data == b.data && (b'.consumer == b.consumer || b'.consumer == []) && store' == s.store
             && chan' == s.chan;
    }
    assert PayloadsOk(b', store', chan');
  }

  lemma StepInv<V>(s: State<V>, e: Step<V>)
    requires Inv(s) && Enabled(s, e)
    ensures Inv(After(s, e))
  {
    HandsKeep(s, e);
    LocksKeep(s, e);
    BlocksKeep(s, e);
    WakeKeeps(s, e);
    PayloadsKeep(s, e);
  }

  lemma {:induction false} RunInv<V>(s: State<V>, steps: seq<Step<V>>, end: State<V>)
    requires Inv(s) && Run(s, steps, end)
    ensures Inv(end)
    decreases |steps|
  {
    if |steps| > 0 {
      StepInv(s, steps[0]);
      RunInv(After(s, steps[0]), steps[1..], end);
    }
  }

  // ---- What this means for the two threads ----

  /** In every interleaving each block is in exactly one place. */
  lemma OnePlace<V>(s: State<V>, steps: seq<Step<V>>, end: State<V>, b: nat)
    requires Init(s) && Run(s, steps, end)
    ensures end.blocks.Everywhere()[b] == if b in end.blocks.all then 1 else 0
  {
    InitInv(s);
    RunInv(s, steps, end);
  }

  /** Every step is a step of the channel or none: payloads arrive in order, each once. */
  lemma Refines<V>(s: State<V>, steps: seq<Step<V>>, mid: State<V>, e: Step<V>)
    requires Init(s) && Run(s, steps, mid) && Enabled(mid, e)
    ensures HandsOk(mid) && Next(mid.chan, After(mid, e).chan) && Ordered(mid.chan)
    ensures |mid.chan.sent| - |mid.chan.received| == |mid.blocks.data|
  {
    InitInv(s);
    RunInv(s, steps, mid);
  }

  /** While the consumer reads its block, the block holds the last payload received. */
  lemma ReadsWhatWasReceived<V>(s: State<V>, steps: seq<Step<V>>, end: State<V>)
    requires Init(s) && Run(s, steps, end) && end.c.Reading?
    ensures |end.blocks.consumer| == 1 && |end.chan.received| > 0
    ensures end.store(end.blocks.consumer[0]) == end.chan.received[|end.chan.received| - 1]
    ensures end.p.Filling? ==> |end.blocks.producer| == 1 && end.blocks.producer[0] != end.blocks.consumer[0]
  {
    InitInv(s);
    RunInv(s, steps, end);
    if end.p.Filling? { HandApart(end.blocks); }
  }

  /** The two threads are never in the same mutex's section. */
  lemma Exclusion<V>(s: State<V>, steps: seq<Step<V>>, end: State<V>)
    requires Init(s) && Run(s, steps, end)
    ensures !((end.p.CheckFree? || end.p.TookFree?) && (end.c.Releasing? || end.c.Released? || end.c.SignalledRelease?))
    ensures !((end.p.Pushing? || end.p.Pushed? || end.p.SignalledPush?) && (end.c.CheckPop? || end.c.TookPop?))
  {
    InitInv(s);
    RunInv(s, steps, end);
  }

  /** The producer's next step, when it is not asleep. */
  ghost function ProducerStep<V>(s: State<V>): Step<V> {
    match s.p
    case WantFree => LockFree case WokenFree => LockFree
    case CheckFree => if s.blocks.free == [] then WaitFree else TakeFree
    case TookFree => UnlockTaken case Filling => DoneFilling case WantPush => LockPush
    case Pushing => Push case Pushed => SignalPush case SignalledPush => UnlockPush
    case SleepFree => SpuriousProducer
  }

  ghost function ConsumerStep<V>(s: State<V>): Step<V> {
    match s.c
    case WantPop => LockPop case WokenPop => LockPop
    case CheckPop => if s.blocks.data == [] then WaitPop else TakePop
    case TookPop => UnlockPop case Reading => DoneReading case WantRelease => LockRelease
    case Releasing => Release case Released => SignalRelease case SignalledRelease => UnlockRelease
    case SleepPop => SpuriousConsumer
  }

  lemma NotBothAsleep<V>(s: State<V>)
    requires Inv(s) && s.blocks.all != {}
    ensures !(s.p.SleepFree? && s.c.SleepPop?)
  {
    var b :| b in s.blocks.all;
    assert s.blocks.Everywhere()[b] == 1;
  }

  lemma SomeoneGoes<V>(s: State<V>)
    requires Inv(s) && !(s.p.SleepFree? && s.c.SleepPop?)
    ensures (!s.p.SleepFree? && Enabled(s, ProducerStep(s))) || (!s.c.SleepPop? && Enabled(s, ConsumerStep(s)))
  {
  }

  /** Once any block exists, one of the threads can always go on: they are never both asleep or stuck. */
  lemma NeverStuck<V>(s: State<V>, steps: seq<Step<V>>, end: State<V>)
    requires Init(s) && Run(s, steps, end) && end.blocks.all != {}
    ensures !(end.p.SleepFree? && end.c.SleepPop?)
    ensures (!end.p.SleepFree? && Enabled(end, ProducerStep(end)))
            || (!end.c.SleepPop? && Enabled(end, ConsumerStep(end)))
  {
    InitInv(s);
    RunInv(s, steps, end);
    NotBothAsleep(end);
    SomeoneGoes(end);
  }

  /** No wake-up is lost: a sleeping thread that could go on is about to be signalled. */
  lemma NoLostWakeup<V>(s: State<V>, steps: seq<Step<V>>, end: State<V>)
    requires Init(s) && Run(s, steps, end)
    ensures HandsOk(end)
    ensures end.p.SleepFree? && end.blocks.free != [] ==>
              Enabled(end, SignalRelease) && After(end, SignalRelease).p.WokenFree?
    ensures end.c.SleepPop? && end.blocks.data != [] ==>
              Enabled(end, SignalPush) && After(end, SignalPush).c.WokenPop?
  {
    InitInv(s);
    RunInv(s, steps, end);
  }

  // ---- Without blocks ----

  /** No block has been allocated, so both threads are at their waiting loops or before them. */
  ghost predicate NoBlocks<V>(s: State<V>) {
    && s.blocks == Blocks([], [], [], [], {}) && LocksOk(s)
    && (s.p.WantFree? || s.p.CheckFree? || s.p.SleepFree? || s.p.WokenFree?)
    && (s.c.WantPop? || s.c.CheckPop? || s.c.SleepPop? || s.c.WokenPop?)
  }

  lemma {:induction false} AllGrows<V>(s: State<V>, steps: seq<Step<V>>, end: State<V>)
    requires Run(s, steps, end)
    ensures s.blocks.all <= end.blocks.all
    decreases |steps|
  {
    if |steps| > 0 { AllGrows(After(s, steps[0]), steps[1..], end); }
  }

  lemma NoBlocksKeeps<V>(s: State<V>, e: Step<V>)
    requires NoBlocks(s) && HandsOk(s) && Enabled(s, e) && After(s, e).blocks.all == {}
    ensures NoBlocks(After(s, e))
  {
    LocksKeep(s, e);
    if e.Allocate? { SetOfNothing(e.more); }
  }

  lemma SetOfNothing(more: seq<nat>)
    ensures SetOf(more) == {} ==> more == []
  {
    if more != [] { assert more[0] in SetOf(more); }
  }

  lemma {:induction false} NoBlocksYet<V>(s: State<V>, steps: seq<Step<V>>, end: State<V>)
    requires NoBlocks(s) && Run(s, steps, end) && end.blocks.all == {}
    ensures NoBlocks(end)
    decreases |steps|
  {
    if |steps| > 0 {
      AllGrows(After(s, steps[0]), steps[1..], end);
      NoBlocksKeeps(s, steps[0]);
      NoBlocksYet(After(s, steps[0]), steps[1..], end);
    }
  }

  lemma {:induction false} RunOn<V>(s: State<V>, e: Step<V>, steps: seq<Step<V>>, end: State<V>)
    requires HandsOk(s) && Enabled(s, e) && Run(After(s, e), steps, end)
    ensures Run(s, [e] + steps, end)
  {
    assert ([e] + steps)[1..] == steps;
  }

  /** From there both threads fall asleep. */
  lemma BothSleep<V>(s: State<V>) returns (steps: seq<Step<V>>, end: State<V>)
    requires NoBlocks(s)
    ensures Run(s, steps, end) && end.p.SleepFree? && end.c.SleepPop? && end.blocks == s.blocks
    decreases if s.p.SleepFree? then 0 else if s.p.CheckFree? then 1 else 2,
              if s.c.SleepPop? then 0 else if s.c.CheckPop? then 1 else 2
  {
    if s.p.SleepFree? && s.c.SleepPop? {
      steps, end := [], s;
    } else {
      var e := if s.p.SleepFree? then ConsumerStep(s) else ProducerStep(s);
      NoBlocksKeeps(s, e);
      steps, end := BothSleep(After(s, e));
      RunOn(s, e, steps, end);
      steps := [e] + steps;
    }
  }

  /** Without a new block, both threads can fall asleep for good exactly when there is none at all. */
  lemma StuckWithoutBlocks<V(!new)>(s: State<V>, steps: seq<Step<V>>, mid: State<V>)
    requires Init(s) && Run(s, steps, mid)
    ensures (exists end :: SleepsAt(mid, end)) <==> mid.blocks.all == {}
  {
    if mid.blocks.all == {} {
      NoBlocksYet(s, steps, mid);
      var more, end := BothSleep(mid);
      assert SleepsAt(mid, end);
    } else {
      InitInv(s);
      RunInv(s, steps, mid);
      forall end | SleepsAt(mid, end) ensures false { NotStuck(mid, end); }
    }
  }

  lemma NotStuck<V(!new)>(mid: State<V>, end: State<V>)
    requires Inv(mid) && mid.blocks.all != {}
    ensures !SleepsAt(mid, end)
  {
    if SleepsAt(mid, end) {
      var more :| Run(mid, more, end);
      RunInv(mid, more, end);
      NotBothAsleep(end);
    }
  }

  /** A run without new blocks leads to both threads asleep. */
  ghost predicate SleepsAt<V(!new)>(mid: State<V>, end: State<V>) {
    && (exists more :: Run(mid, more, end))
    && end.p.SleepFree? && end.c.SleepPop? && end.blocks.all == mid.blocks.all
  }
}
