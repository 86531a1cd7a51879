/**
 * The memory socket as a ring of blocks under one mutex with two condition variables. It is another
 * implementation of the channel in module Channels.
 */
module RingSockets {
  import opened Channels
  import Bits

  datatype Owner = NoOne | TheProducer | TheConsumer

  /** The producer fills its block outside the lock; the rest is push_buffer. */
  datatype Producer = Filling | WantPush | CheckPush | SleepPush | WokenPush | Moved | SignalledPush

  /** The consumer in pop_buffer, reading its block, and in release_buffer. */
  datatype Consumer =
    WantPop | CheckPop | SleepPop | WokenPop | Found | Reading | WantRelease | Releasing | Released | SignalledRelease

  /** The number of blocks is 2 to the power bits. */
  datatype Ring = Ring(bits: nat) {
    function Size(): nat { Bits.Pow2(bits) }

    ghost predicate Valid() { bits > 0 }

    /** The next index, by masking. */
    function Advance(x: nat): nat { Bits.And(x + 1, Size() - 1) }
  }

  datatype State<V> = State(p: Producer, c: Consumer, lock: Owner, head: nat, tail: nat, slots: nat -> V,
                            chan: Channel<V>) {

    /** The consumer has been given the block at tail and has not released it. */
    predicate Holds() { c.Found? || c.Reading? || c.WantRelease? || c.Releasing? }

    /** How many blocks have been released. */
    function Freed(): int { |chan.received| - if Holds() then 1 else 0 }
  }

  datatype Step<V> =
    | Fill(payload: V) | DoneFilling | LockPush | WaitPush | Move | SignalPush | UnlockPush
    | LockPop | WaitPop | Find | UnlockPop | DoneReading | LockRelease | Release | SignalRelease | UnlockRelease
    | SpuriousProducer | SpuriousConsumer

  ghost predicate Enabled<V>(r: Ring, s: State<V>, e: Step<V>) {
    match e
    case Fill(_) => s.p.Filling?
    case DoneFilling => s.p.Filling?
    case LockPush => (s.p.WantPush? || s.p.WokenPush?) && s.lock.NoOne?
    case WaitPush => s.p.CheckPush? && r.Advance(s.head) == s.tail
    case Move => s.p.CheckPush? && r.Advance(s.head) != s.tail
    case SignalPush => s.p.Moved?
    case UnlockPush => s.p.SignalledPush?
    case LockPop => (s.c.WantPop? || s.c.WokenPop?) && s.lock.NoOne?
    case WaitPop => s.c.CheckPop? && s.tail == s.head
    case Find => s.c.CheckPop? && s.tail != s.head
    case UnlockPop => s.c.Found?
    case DoneReading => s.c.Reading?
    case LockRelease => s.c.WantRelease? && s.lock.NoOne?
    case Release => s.c.Releasing?
    case SignalRelease => s.c.Released?
    case UnlockRelease => s.c.SignalledRelease?
    case SpuriousProducer => s.p.SleepPush?
    case SpuriousConsumer => s.c.SleepPop?
  }

  ghost function After<V>(r: Ring, s: State<V>, e: Step<V>): State<V>
    requires Enabled(r, s, e)
  {
    match e
    case Fill(v) => s.(slots := (x: nat) => if x == s.head then v else s.slots(x))
    case DoneFilling => s.(p := WantPush)
    case LockPush => s.(p := CheckPush, lock := TheProducer)
    case WaitPush => s.(p := SleepPush, lock := NoOne)
    case Move => s.(p := Moved, head := r.Advance(s.head), chan := s.chan.(sent := s.chan.sent + [s.slots(s.head)]))
    case SignalPush => s.(p := SignalledPush, c := if s.c.SleepPop? then WokenPop else s.c)
    case UnlockPush => s.(p := Filling, lock := NoOne)
    case LockPop => s.(c := CheckPop, lock := TheConsumer)
    case WaitPop => s.(c := SleepPop, lock := NoOne)
    case Find => s.(c := Found, chan := s.chan.(received := s.chan.received + [s.slots(s.tail)]))
    case UnlockPop => s.(c := Reading, lock := NoOne)
    case DoneReading => s.(c := WantRelease)
    case LockRelease => s.(c := Releasing, lock := TheConsumer)
    case Release => s.(c := Released, tail := r.Advance(s.tail))
    case SignalRelease => s.(c := SignalledRelease, p := if s.p.SleepPush? then WokenPush else s.p)
    case UnlockRelease => s.(c := WantPop, lock := NoOne)
    case SpuriousProducer => s.(p := WokenPush)
    case SpuriousConsumer => s.(c := WokenPop)
  }

  ghost predicate Init<V>(s: State<V>) {
    s == State(Filling, WantPop, NoOne, 0, 0, s.slots, Channel([], []))
  }

  ghost predicate Run<V>(r: Ring, s: State<V>, steps: seq<Step<V>>, end: State<V>)
    decreases |steps|
  {
    if |steps| == 0 then end == s else Enabled(r, s, steps[0]) && Run(r, After(r, s, steps[0]), steps[1..], end)
  }

  // ---- Indices ----

  function Slot(r: Ring, x: nat): nat { x % r.Size() }

  lemma AdvanceSlot(r: Ring, x: nat)
    ensures r.Advance(Slot(r, x)) == Slot(r, x + 1)
  {
    var n := r.Size();
    Bits.AndMask(x % n + 1, r.bits);
    ModSuccessor(x, n);
  }

  lemma ModSuccessor(x: nat, n: nat)
    requires n > 0
    ensures (x % n + 1) % n == (x + 1) % n
  {
    var q, m := x / n, (x % n + 1) / n;
    var left := (x % n + 1) % n;
    assert x + 1 == n * (q + m) + left by {
      assert x == n * q + x % n && x % n + 1 == n * m + left;
      assert n * (q + m) == n * q + n * m;
    }
    Bits.ModUnique(x + 1, n, q + m, left);
  }

  lemma SlotsDiffer(r: Ring, a: nat, b: nat)
    requires a < b < a + r.Size()
    ensures Slot(r, a) != Slot(r, b)
  {
    var n := r.Size();
    if a % n == b % n {
      assert b - a == n * (b / n - a / n) by {
        assert a == n * (a / n) + a % n && b == n * (b / n) + b % n;
        assert n * (b / n - a / n) == n * (b / n) - n * (a / n);
      }
      Bits.MulBounds(n, b / n - a / n);
    }
  }

  // ---- What every step keeps ----

  ghost predicate LocksOk<V>(s: State<V>) {
    && (s.lock.TheProducer? <==> s.p.CheckPush? || s.p.Moved? || s.p.SignalledPush?)
    && (s.lock.TheConsumer? <==>
          s.c.CheckPop? || s.c.Found? || s.c.Releasing? || s.c.Released? || s.c.SignalledRelease?)
  }

  /**
   * head and tail count the payloads sent and the blocks released, modulo the ring; at least one block is
   * the producer's.
   */
  ghost predicate IndicesOk<V>(r: Ring, s: State<V>) {
    && 0 <= s.Freed() && |s.chan.received| <= |s.chan.sent| < s.Freed() + r.Size()
    && s.head == Slot(r, |s.chan.sent|) && s.tail == Slot(r, s.Freed())
  }

  ghost predicate WakeOk<V>(r: Ring, s: State<V>) {
    && (s.p.SleepPush? ==> r.Advance(s.head) == s.tail || s.c.Released?)
    && (s.c.SleepPop? ==> s.tail == s.head || s.p.Moved?)
  }

  /** Every payload sent and not released is in its slot. */
  ghost predicate PayloadsOk<V>(r: Ring, s: State<V>) {
    && Ordered(s.chan)
    && forall j: nat | s.Freed() <= j < |s.chan.sent| :: s.slots(Slot(r, j)) == s.chan.sent[j]
  }

  ghost predicate Inv<V>(r: Ring, s: State<V>) {
    LocksOk(s) && IndicesOk(r, s) && WakeOk(r, s) && PayloadsOk(r, s)
  }

  lemma SizeAtLeast2(r: Ring)
    requires r.Valid()
    ensures r.Size() >= 2
  {
  }

  lemma InitInv<V>(r: Ring, s: State<V>)
    requires r.Valid() && Init(s)
    ensures Inv(r, s)
  {
  }

  /**
   * The two waiting tests: no room exactly when all blocks but the producer's are in use, no data exactly
   * when none is.
   */
  lemma FullAndEmpty<V>(r: Ring, s: State<V>)
    requires r.Valid() && IndicesOk(r, s)
    ensures r.Advance(s.head) == s.tail <==> |s.chan.sent| - s.Freed() == r.Size() - 1
    ensures s.tail == s.head <==> |s.chan.sent| == s.Freed()
  {
    var h, t := |s.chan.sent|, s.Freed();
    AdvanceSlot(r, h);
    SizeAtLeast2(r);
    if h > t { SlotsDiffer(r, t, h); }
    if h + 1 < t + r.Size() { SlotsDiffer(r, t, h + 1); } else { SlotAround(r, t); }
  }

  lemma SlotAround(r: Ring, x: nat)
    ensures Slot(r, x + r.Size()) == Slot(r, x)
  {
    var n := r.Size();
    assert x + n == n * (x / n + 1) + x % n;
    Bits.ModUnique(x + n, n, x / n + 1, x % n);
  }

  lemma LocksKeep<V>(r: Ring, s: State<V>, e: Step<V>)
    requires LocksOk(s) && Enabled(r, s, e)
    ensures LocksOk(After(r, s, e))
  {
  }

  lemma IndicesKeep<V>(r: Ring, s: State<V>, e: Step<V>)
    requires r.Valid() && IndicesOk(r, s) && Enabled(r, s, e)
    ensures IndicesOk(r, After(r, s, e))
  {
    FullAndEmpty(r, s);
    AdvanceSlot(r, |s.chan.sent|);
    AdvanceSlot(r, s.Freed());
  }

  lemma WakeKeeps<V>(r: Ring, s: State<V>, e: Step<V>)
    requires LocksOk(s) && WakeOk(r, s) && Enabled(r, s, e)
    ensures WakeOk(r, After(r, s, e))
  {
  }

  lemma PayloadsKeep<V>(r: Ring, s: State<V>, e: Step<V>)
    requires r.Valid() && IndicesOk(r, s) && PayloadsOk(r, s) && Enabled(r, s, e)
    ensures PayloadsOk(r, After(r, s, e))
    ensures Next(s.chan, After(r, s, e).chan)
  {
    FullAndEmpty(r, s);
    if e.Fill? {
      forall j: nat | s.Freed() <= j < |s.chan.sent| ensures Slot(r, j) != s.head { SlotsDiffer(r, j, |s.chan.sent|); }
    }
    if e.Find? { assert s.slots(Slot(r, s.Freed())) == s.chan.sent[s.Freed()]; }
    NextOrdered(s.chan, After(r, s, e).chan);
  }

  lemma StepInv<V>(r: Ring, s: State<V>, e: Step<V>)
    requires r.Valid() && Inv(r, s) && Enabled(r, s, e)
    ensures Inv(r, After(r, s, e))
  {
    LocksKeep(r, s, e);
    IndicesKeep(r, s, e);
    WakeKeeps(r, s, e);
    PayloadsKeep(r, s, e);
  }

  lemma {:induction false} RunInv<V>(r: Ring, s: State<V>, steps: seq<Step<V>>, end: State<V>)
    requires r.Valid() && Inv(r, s) && Run(r, s, steps, end)
    ensures Inv(r, end)
    decreases |steps|
  {
    if |steps| > 0 {
      StepInv(r, s, steps[0]);
      RunInv(r, After(r, s, steps[0]), steps[1..], end);
    }
  }

  // ---- What this means for the two threads ----

  /** Every step is a step of the channel or none, and all blocks but one can be in flight. */
  lemma Refines<V>(r: Ring, s: State<V>, steps: seq<Step<V>>, mid: State<V>, e: Step<V>)
    requires r.Valid() && Init(s) && Run(r, s, steps, mid) && Enabled(r, mid, e)
    ensures Next(mid.chan, After(r, mid, e).chan) && Ordered(mid.chan)
    ensures |mid.chan.sent| - |mid.chan.received| <= r.Size() - 1
  {
    InitInv(r, s);
    RunInv(r, s, steps, mid);
    PayloadsKeep(r, mid, e);
  }

  /** The consumer's slot is never the one the producer fills, and holds the last payload received. */
  lemma SlotsApart<V>(r: Ring, s: State<V>, steps: seq<Step<V>>, end: State<V>)
    requires r.Valid() && Init(s) && Run(r, s, steps, end) && end.Holds()
    ensures end.head != end.tail
    ensures |end.chan.received| > 0 && end.slots(end.tail) == end.chan.received[|end.chan.received| - 1]
  {
    InitInv(r, s);
    RunInv(r, s, steps, end);
    FullAndEmpty(r, end);
  }

  /** The two threads are never in the section together. */
  lemma Exclusion<V>(r: Ring, s: State<V>, steps: seq<Step<V>>, end: State<V>)
    requires r.Valid() && Init(s) && Run(r, s, steps, end)
    ensures !((end.p.CheckPush? || end.p.Moved? || end.p.SignalledPush?)
           && (end.c.CheckPop? || end.c.Found? || end.c.Releasing? || end.c.Released? || end.c.SignalledRelease?))
  {
    InitInv(r, s);
    RunInv(r, s, steps, end);
  }

  /** The producer's next step; when it is asleep, only waking for no reason. */
  ghost function ProducerStep<V>(r: Ring, s: State<V>): Step<V> {
    match s.p
    case Filling => DoneFilling case WantPush => LockPush case WokenPush => LockPush
    case CheckPush => if r.Advance(s.head) == s.tail then WaitPush else Move
    case Moved => SignalPush case SignalledPush => UnlockPush case SleepPush => SpuriousProducer
  }

  ghost function ConsumerStep<V>(s: State<V>): Step<V> {
    match s.c
    case WantPop => LockPop case WokenPop => LockPop case CheckPop => if s.tail == s.head then WaitPop else Find
    case Found => UnlockPop case Reading => DoneReading case WantRelease => LockRelease
    case Releasing => Release case Released => SignalRelease case SignalledRelease => UnlockRelease
    case SleepPop => SpuriousConsumer
  }

  /** One of the threads can always go on, although the producer keeps its block while it waits. */
  lemma NeverStuck<V>(r: Ring, s: State<V>, steps: seq<Step<V>>, end: State<V>)
    requires r.Valid() && Init(s) && Run(r, s, steps, end)
    ensures !(end.p.SleepPush? && end.c.SleepPop?)
    ensures (!end.p.SleepPush? && Enabled(r, end, ProducerStep(r, end)))
            || (!end.c.SleepPop? && Enabled(r, end, ConsumerStep(end)))
  {
    InitInv(r, s);
    RunInv(r, s, steps, end);
    FullAndEmpty(r, end);
    SizeAtLeast2(r);
  }

  /** No wake-up is lost: a sleeping thread that could go on is about to be signalled. */
  lemma NoLostWakeup<V>(r: Ring, s: State<V>, steps: seq<Step<V>>, end: State<V>)
    requires r.Valid() && Init(s) && Run(r, s, steps, end)
    ensures end.p.SleepPush? && |end.chan.sent| - end.Freed() < r.Size() - 1 ==>
              Enabled(r, end, SignalRelease) && After(r, end, SignalRelease).p.WokenPush?
    ensures end.c.SleepPop? && |end.chan.sent| > end.Freed() ==>
              Enabled(r, end, SignalPush) && After(r, end, SignalPush).c.WokenPop?
  {
    InitInv(r, s);
    RunInv(r, s, steps, end);
    FullAndEmpty(r, end);
  }
}
