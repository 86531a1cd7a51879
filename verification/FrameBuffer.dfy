/**
 * The two buffers of consumer3 on values, and when rolling a frame back brings the saved items back.
 * A pseudo-frame (id -1) moves the items not yet popped without saving them first, so a repeated frame
 * that comes later may find other items where the saved ones stood.
 */
module FrameBuffers {
  const CONSUMER_BUFFER_SIZE: nat := 21000
  const BACKUP_SIZE: nat := 1000

  /** How a frame read relates to those before: the next one, the last one once more, or id -1. */
  datatype Kind = New | Repeated | Pseudo

  function KindOf(id: int, frameId: int): Kind {
    if id == -1 then Pseudo else if id > frameId then New else Repeated
  }

  datatype Reader<T> = Reader(buf: seq<T>, buf2: seq<T>, offs: nat, count: nat, backupSize: nat) {

    ghost predicate Ok() {
      |buf| == CONSUMER_BUFFER_SIZE && |buf2| == BACKUP_SIZE && offs <= count <= |buf| && backupSize <= |buf2|
    }

    /** How many items have not been popped yet. */
    function Left(): nat
      requires offs <= count
    {
      count - offs
    }

    function Pending(): (r: seq<T>)
      requires Ok()
      ensures |r| == Left()
    {
      buf[offs..count]
    }

    function Saved(): seq<T>
      requires Ok()
    {
      buf2[..backupSize]
    }
  }

  /** The buffer with the items not yet popped moved to its front. */
  function Shifted<T>(r: Reader<T>): (b: seq<T>)
    requires r.Ok()
    ensures |b| == |r.buf|
  {
    r.buf[r.offs..r.count] + r.buf[r.count - r.offs..]
  }

  lemma ShiftedIs<T>(r: Reader<T>, b: seq<T>)
    requires r.Ok() && |b| == |r.buf|
    requires forall p | 0 <= p < r.Left() :: b[p] == r.buf[r.offs + p]
    requires forall p | r.Left() <= p < |b| :: b[p] == r.buf[p]
    ensures b == Shifted(r)
  {
  }

  /** Before a frame's items: a new frame saves what is left, a repeated one copies as many items back as are left. */
  function Prepared<T>(r: Reader<T>, kind: Kind): (q: Reader<T>)
    requires r.Ok() && (kind.Pseudo? || r.Left() <= BACKUP_SIZE)
    ensures q.Ok() && q.offs == 0
  {
    var b, left := Shifted(r), r.Left();
    match kind
    case Pseudo => Reader(b, r.buf2, 0, left, r.backupSize)
    case New => Reader(b, b[..left] + r.buf2[left..], 0, left, left)
    case Repeated => Reader(r.buf2[..left] + b[left..], r.buf2, 0, r.backupSize, r.backupSize)
  }

  /** The items of a frame are put behind those in the buffer. */
  function Appended<T>(r: Reader<T>, items: seq<T>): (q: Reader<T>)
    requires r.Ok() && r.count + |items| <= CONSUMER_BUFFER_SIZE
    ensures q.Ok()
  {
    r.(buf := r.buf[..r.count] + items + r.buf[r.count + |items|..], count := r.count + |items|)
  }

  lemma AppendedIs<T>(r: Reader<T>, items: seq<T>, b: seq<T>)
    requires r.Ok() && r.count + |items| <= CONSUMER_BUFFER_SIZE && |b| == |r.buf|
    requires forall p | 0 <= p < |b| :: b[p] == if r.count <= p < r.count + |items| then items[p - r.count]
             else r.buf[p]
    ensures b == Appended(r, items).buf
  {
  }

  ghost predicate Fits<T>(r: Reader<T>, kind: Kind, n: nat) {
    && r.Ok() && (kind.Pseudo? || r.Left() <= BACKUP_SIZE)
    && (if kind.Repeated? then r.backupSize else r.Left()) + n <= CONSUMER_BUFFER_SIZE
  }

  /** One read_frame. */
  function Read<T>(r: Reader<T>, kind: Kind, items: seq<T>): (q: Reader<T>)
    requires Fits(r, kind, |items|)
    ensures q.Ok() && q.offs == 0
  {
    Appended(Prepared(r, kind), items)
  }

  // ---- What happens between one new frame and the next ----

  datatype Event<T> = Pop(n: nat) | Frame(repeated: bool, items: seq<T>)

  /** The same without the items themselves. */
  datatype Move = Pops(n: nat) | Arrives(repeated: bool, n: nat)

  function MoveOf<T>(e: Event<T>): Move {
    match e
    case Pop(n) => Pops(n)
    case Frame(repeated, items) => Arrives(repeated, |items|)
  }

  function FrameKind(repeated: bool): Kind { if repeated then Repeated else Pseudo }

  ghost predicate Possible<T>(r: Reader<T>, m: Move) {
    match m
    case Pops(n) => r.Ok() && n <= r.Left()
    case Arrives(repeated, n) => Fits(r, FrameKind(repeated), n)
  }

  function After<T>(r: Reader<T>, e: Event<T>): (q: Reader<T>)
    requires Possible(r, MoveOf(e))
    ensures q.Ok() && q.backupSize == r.backupSize && q.buf2 == r.buf2
  {
    match e
    case Pop(n) => r.(offs := r.offs + n)
    case Frame(repeated, items) => Read(r, FrameKind(repeated), items)
  }

  /** q is r after a frame has been read. */
  ghost predicate Reads<T>(r: Reader<T>, kind: Kind, items: seq<T>, q: Reader<T>) {
    forall u: nat :: ReadsAt(u, r, kind, items, q)
  }

  ghost predicate ReadsAt<T>(unused: nat, r: Reader<T>, kind: Kind, items: seq<T>, q: Reader<T>) {
    Fits(r, kind, |items|) && q == Read(r, kind, items)
  }

  lemma NewAt<T>(r: Reader<T>, items: seq<T>, q: Reader<T>)
    requires Fits(r, New, |items|) && q == Read(r, New, items)
    ensures q.backupSize == r.Left() && q.count == r.Left() + |items|
    ensures forall p {:trigger q.buf[p]} | 0 <= p < r.Left() + |items| ::
              q.buf[p] == if p < r.Left() then r.buf[r.offs + p] else items[p - r.Left()]
    ensures forall p {:trigger q.buf2[p]} | 0 <= p < r.Left() :: q.buf2[p] == r.buf[r.offs + p]
  {
  }

  lemma PseudoAt<T>(r: Reader<T>, items: seq<T>, q: Reader<T>)
    requires Fits(r, Pseudo, |items|) && q == Read(r, Pseudo, items)
    ensures forall p {:trigger q.buf[p]} | 0 <= p < |q.buf| ::
              q.buf[p] == if p < r.Left() then r.buf[r.offs + p]
                          else if p < r.Left() + |items| then items[p - r.Left()] else r.buf[p]
  {
  }

  lemma RepeatedAt<T>(r: Reader<T>, items: seq<T>, q: Reader<T>)
    requires Fits(r, Repeated, |items|) && q == Read(r, Repeated, items)
    ensures forall p {:trigger q.buf[p]} | 0 <= p < |q.buf| ::
              q.buf[p] == if r.backupSize <= p < r.backupSize + |items| then items[p - r.backupSize]
                          else if p < r.Left() then r.buf2[p] else r.buf[p]
  {
  }

  // ---- The counts a caller can keep ----

  function Max(a: nat, b: nat): nat { if a < b then b else a }

  function Min(a: nat, b: nat): nat { if a < b then a else b }

  /**
   * popped: an item has been popped since the last new or repeated frame. dirty: below it other items
   * than the saved ones may stand.
   */
  datatype Counts = Counts(offs: nat, count: nat, backupSize: nat, popped: bool, dirty: nat) {

    ghost predicate Ok() {
      offs <= count <= CONSUMER_BUFFER_SIZE && backupSize <= BACKUP_SIZE
    }

    function Left(): nat
      requires offs <= count
    {
      count - offs
    }

    /** Whether a repeated frame read now gets back what was saved. */
    predicate Restores()
      requires offs <= count
    {
      Min(dirty, backupSize) <= Left()
    }
  }

  ghost predicate Allowed(c: Counts, m: Move) {
    && c.Ok()
    && match m
       case Pops(n) => n <= c.Left()
       case Arrives(true, n) => c.Left() <= BACKUP_SIZE && c.backupSize + n <= CONSUMER_BUFFER_SIZE
       case Arrives(false, n) => c.Left() + n <= CONSUMER_BUFFER_SIZE
  }

  /** After a new frame with n items, when left items were not yet popped. */
  function Started(left: nat, n: nat): Counts {
    Counts(0, left + n, left, false, 0)
  }

  function Counted(c: Counts, m: Move): (d: Counts)
    requires Allowed(c, m)
    ensures d.Ok() && d.backupSize == c.backupSize
  {
    match m
    case Pops(n) => c.(offs := c.offs + n, popped := c.popped || n > 0)
    case Arrives(true, n) => Counts(0, c.backupSize + n, c.backupSize, false, if c.Restores() then 0 else c.dirty)
    case Arrives(false, n) =>
      c.(offs := 0, count := c.Left() + n, dirty := if c.popped then Max(c.dirty, c.Left() + n) else c.dirty)
  }

  ghost predicate AllAllowed(c: Counts, moves: seq<Move>)
    decreases moves
  {
    c.Ok() && (moves != [] ==> Allowed(c, moves[0]) && AllAllowed(Counted(c, moves[0]), moves[1..]))
  }

  function AllCounted(c: Counts, moves: seq<Move>): (d: Counts)
    requires AllAllowed(c, moves)
    ensures d.Ok() && d.backupSize == c.backupSize
    decreases moves
  {
    if moves == [] then c else AllCounted(Counted(c, moves[0]), moves[1..])
  }

  // ---- Whatever the items are ----

  ghost predicate Agrees<T>(r: Reader<T>, c: Counts) {
    && r.Ok() && c.Ok() && (r.offs, r.count, r.backupSize) == (c.offs, c.count, c.backupSize)
    && (!c.popped ==> c.offs == 0 && c.backupSize <= c.count)
  }

  /** From dirty on the saved items are in place. */
  ghost predicate Clean<T>(r: Reader<T>, c: Counts) {
    forall u: nat :: CleanAt(u, r, c)
  }

  ghost predicate CleanAt<T>(unused: nat, r: Reader<T>, c: Counts) {
    Agrees(r, c) && forall p | Min(c.dirty, c.backupSize) <= p < c.backupSize :: r.buf[p] == r.buf2[p]
  }

  lemma AgreesAfter<T>(r: Reader<T>, c: Counts, e: Event<T>)
    requires Agrees(r, c) && Allowed(c, MoveOf(e))
    ensures Possible(r, MoveOf(e)) && Agrees(After(r, e), Counted(c, MoveOf(e)))
  {
  }

  lemma CleanRepeated<T>(r: Reader<T>, c: Counts, items: seq<T>, q: Reader<T>, d: Counts)
    requires Clean(r, c) && Allowed(c, Arrives(true, |items|)) && Fits(r, Repeated, |items|)
             && q == Read(r, Repeated, items)
    requires d == Counted(c, Arrives(true, |items|)) && Agrees(q, d)
    ensures Clean(q, d)
  {
    assert CleanAt(0, r, c);
    RepeatedAt(r, items, q);
    forall u: nat ensures CleanAt(u, q, d) { }
  }

  lemma CleanPseudo<T>(r: Reader<T>, c: Counts, items: seq<T>, q: Reader<T>, d: Counts)
    requires Clean(r, c) && Allowed(c, Arrives(false, |items|)) && Fits(r, Pseudo, |items|)
             && q == Read(r, Pseudo, items)
    requires d == Counted(c, Arrives(false, |items|)) && Agrees(q, d)
    ensures Clean(q, d)
  {
    assert CleanAt(0, r, c);
    PseudoAt(r, items, q);
    forall u: nat ensures CleanAt(u, q, d) { }
  }

  lemma CleanPop<T>(r: Reader<T>, c: Counts, n: nat, q: Reader<T>, d: Counts)
    requires Clean(r, c) && Allowed(c, Pops(n)) && q == r.(offs := r.offs + n) && d == Counted(c, Pops(n))
    ensures Clean(q, d)
  {
    assert CleanAt(0, r, c);
    forall u: nat ensures CleanAt(u, q, d) { }
  }

  lemma CleanAfter<T>(r: Reader<T>, c: Counts, e: Event<T>)
    requires Clean(r, c) && Allowed(c, MoveOf(e))
    ensures Possible(r, MoveOf(e)) && Clean(After(r, e), Counted(c, MoveOf(e)))
  {
    assert CleanAt(0, r, c);
    AgreesAfter(r, c, e);
    match e {
      case Pop(n) => CleanPop(r, c, n, After(r, e), Counted(c, MoveOf(e)));
      case Frame(true, items) => CleanRepeated(r, c, items, After(r, e), Counted(c, MoveOf(e)));
      case Frame(false, items) => CleanPseudo(r, c, items, After(r, e), Counted(c, MoveOf(e)));
    }
  }

  lemma CleanAgrees<T>(r: Reader<T>, c: Counts)
    requires Clean(r, c)
    ensures r.Ok() && c.Ok() && r.Left() == c.Left() && r.backupSize == c.backupSize
  {
    assert CleanAt(0, r, c);
  }

  /** The moves of the events, one by one. */
  function Moves<T>(events: seq<Event<T>>): (moves: seq<Move>)
    ensures |moves| == |events|
  {
    if events == [] then [] else [MoveOf(events[0])] + Moves(events[1..])
  }

  ghost predicate CanRun<T>(r: Reader<T>, events: seq<Event<T>>)
    decreases events
  {
    r.Ok() && (events != [] ==> Possible(r, MoveOf(events[0])) && CanRun(After(r, events[0]), events[1..]))
  }

  function Run<T>(r: Reader<T>, events: seq<Event<T>>): (q: Reader<T>)
    requires CanRun(r, events)
    ensures q.Ok() && q.buf2 == r.buf2 && q.backupSize == r.backupSize
    decreases events
  {
    if events == [] then r else Run(After(r, events[0]), events[1..])
  }

  lemma {:induction false} CleanRun<T>(r: Reader<T>, c: Counts, events: seq<Event<T>>)
    requires Clean(r, c) && AllAllowed(c, Moves(events))
    ensures CanRun(r, events) && Clean(Run(r, events), AllCounted(c, Moves(events)))
    decreases events
  {
    assert CleanAt(0, r, c);
    if events != [] {
      CleanAfter(r, c, events[0]);
      assert Moves(events)[1..] == Moves(events[1..]);
      CleanRun(After(r, events[0]), Counted(c, MoveOf(events[0])), events[1..]);
    }
  }

  /** The state a new frame leaves is clean, and has saved what was pending. */
  lemma NewFrameClean<T>(r: Reader<T>, first: seq<T>)
    requires Fits(r, New, |first|)
    ensures var q := Read(r, New, first);
      && Clean(q, Started(r.Left(), |first|)) && q.Saved() == r.Pending() && q.Pending() == r.Pending() + first
  {
    var q := Read(r, New, first);
    NewAt(r, first, q);
    assert forall i | 0 <= i < r.Left() :: q.Saved()[i] == r.Pending()[i];
    assert forall i | 0 <= i < q.count :: q.Pending()[i] == (r.Pending() + first)[i];
    forall u: nat ensures CleanAt(u, q, Started(r.Left(), |first|)) { }
  }

  /** What a repeated frame puts before its own items. */
  function GottenBack<T>(r: Reader<T>): seq<T>
    requires r.Ok() && r.Left() <= BACKUP_SIZE
  {
    Prepared(r, Repeated).Pending()
  }

  lemma GottenBackAt<T>(r: Reader<T>)
    requires r.Ok() && r.Left() <= BACKUP_SIZE
    ensures GottenBack(r) == r.Saved() <==> forall p | r.Left() <= p < r.backupSize :: r.buf[p] == r.buf2[p]
  {
    var q := Prepared(r, Repeated);
    assert |GottenBack(r)| == |r.Saved()| == r.backupSize;
    assert forall p | 0 <= p < r.backupSize ::
        GottenBack(r)[p] == (if p < r.Left() then r.buf2[p] else r.buf[p]) && r.Saved()[p] == r.buf2[p];
  }

  /**
   * A repeated frame, read after a new frame with the items first and these events, puts back the items
   * that were pending when the new frame came.
   */
  ghost predicate GetsBack<T>(r: Reader<T>, first: seq<T>, events: seq<Event<T>>) {
    && Fits(r, New, |first|) && CanRun(Read(r, New, first), events)
    && var q := Run(Read(r, New, first), events); q.Left() <= BACKUP_SIZE && GottenBack(q) == r.Pending()
  }

  lemma RestoredIfClean<T>(r: Reader<T>, first: seq<T>, events: seq<Event<T>>)
    requires Fits(r, New, |first|) && AllAllowed(Started(r.Left(), |first|), Moves(events))
    requires var c := AllCounted(Started(r.Left(), |first|), Moves(events)); c.Left() <= BACKUP_SIZE && c.Restores()
    ensures GetsBack(r, first, events)
  {
    NewFrameClean(r, first);
    var q := Read(r, New, first);
    CleanRun(q, Started(r.Left(), |first|), events);
    assert CleanAt(0, Run(q, events), AllCounted(Started(r.Left(), |first|), Moves(events)));
    GottenBackAt(Run(q, events));
  }

  // ---- One frame after another, as the consumer sees them ----

  ghost predicate Roomy(c: Counts, kind: Kind, n: nat) {
    && c.Ok() && (kind.Pseudo? || c.Left() <= BACKUP_SIZE)
    && (if kind.Repeated? then c.backupSize else c.Left()) + n <= CONSUMER_BUFFER_SIZE
  }

  function CountedFrame(c: Counts, kind: Kind, n: nat): (d: Counts)
    requires Roomy(c, kind, n)
    ensures d.Ok() && d.offs == 0 && d.count == (if kind.Repeated? then c.backupSize else c.Left()) + n
  {
    if kind.New? then Started(c.Left(), n) else Counted(c, Arrives(kind.Repeated?, n))
  }

  /** What a frame read does to what is pending and what is saved. */
  lemma ReadPending<T>(r: Reader<T>, kind: Kind, items: seq<T>)
    requires Fits(r, kind, |items|)
    ensures var q := Read(r, kind, items);
      && q.Pending() == (if kind.Repeated? then GottenBack(r) else r.Pending()) + items
      && q.Saved() == if kind.New? then r.Pending() else r.Saved()
  {
    var p, q := Prepared(r, kind), Read(r, kind, items);
    assert q.Pending() == p.Pending() + items;
    if kind.New? { NewFrameClean(r, items); }
  }

  lemma CleanFits<T>(r: Reader<T>, c: Counts, kind: Kind, n: nat)
    requires Clean(r, c) && Roomy(c, kind, n)
    ensures Fits(r, kind, n) && (kind.Repeated? && c.Restores() ==> GottenBack(r) == r.Saved())
  {
    assert CleanAt(0, r, c);
    if kind.Repeated? { GottenBackAt(r); }
  }

  /** As long as the counts say that frames can be restored, they are. */
  lemma ReadClean<T>(r: Reader<T>, c: Counts, kind: Kind, items: seq<T>, q: Reader<T>)
    requires Clean(r, c) && Roomy(c, kind, |items|) && Reads(r, kind, items, q)
    ensures Clean(q, CountedFrame(c, kind, |items|))
  {
    assert CleanAt(0, r, c) && ReadsAt(0, r, kind, items, q);
    match kind {
      case New => NewFrameClean(r, items);
      case Repeated => CleanAfter(r, c, Frame(true, items));
      case Pseudo => CleanAfter(r, c, Frame(false, items));
    }
  }

  // ---- Items that show where they came from ----

  /** Every place holds its own number or a larger one. */
  ghost predicate Marked(r: Reader<nat>, c: Counts) {
    && Agrees(r, c)
    && (forall p | 0 <= p < |r.buf| :: r.buf[p] >= p) && (forall p | 0 <= p < |r.buf2| :: r.buf2[p] == p)
    && (Min(c.dirty, c.backupSize) > 0 ==> OutOfPlace(r, Min(c.dirty, c.backupSize) - 1))
    && (c.popped && c.offs == 0 ==> forall p | 0 <= p < c.count :: OutOfPlace(r, p))
  }

  ghost predicate OutOfPlace(r: Reader<nat>, p: nat) {
    p < |r.buf| && r.buf[p] > p
  }

  /** An event whose items are larger than any place. */
  function Marks(m: Move): Event<nat> {
    match m
    case Pops(n) => Pop(n)
    case Arrives(repeated, n) => Frame(repeated, seq(n, i => CONSUMER_BUFFER_SIZE))
  }

  lemma MarkedPops(r: Reader<nat>, c: Counts, n: nat)
    requires Marked(r, c) && Allowed(c, Pops(n))
    ensures Marked(After(r, Pop(n)), Counted(c, Pops(n)))
  {
  }

  lemma MarkedRepeated(r: Reader<nat>, c: Counts, n: nat, items: seq<nat>, q: Reader<nat>)
    requires Marked(r, c) && Allowed(c, Arrives(true, n)) && |items| == n
    requires forall i | 0 <= i < n :: items[i] == CONSUMER_BUFFER_SIZE
    requires Agrees(q, Counted(c, Arrives(true, n))) && q == Read(r, Repeated, items)
    ensures Marked(q, Counted(c, Arrives(true, n)))
  {
    RepeatedAt(r, items, q);
  }

  /** Once an item has been popped, nothing that a pseudo-frame leaves in the buffer is in its old place. */
  lemma AllOutOfPlace(r: Reader<nat>, c: Counts, items: seq<nat>, q: Reader<nat>, p: nat)
    requires Marked(r, c) && Allowed(c, Arrives(false, |items|)) && c.popped && p < c.Left() + |items|
    requires forall i | 0 <= i < |items| :: items[i] == CONSUMER_BUFFER_SIZE
    requires q == Read(r, Pseudo, items)
    ensures OutOfPlace(q, p)
  {
    PseudoAt(r, items, q);
    if p < c.Left() {
      assert r.buf[r.offs + p] >= r.offs + p;
      if c.offs == 0 { assert OutOfPlace(r, p); }
    }
  }

  /** At places that are beyond the items, or were before, nothing changes. */
  lemma NumbersGrow(r: Reader<nat>, c: Counts, items: seq<nat>, q: Reader<nat>)
    requires Marked(r, c) && Allowed(c, Arrives(false, |items|)) && q == Read(r, Pseudo, items)
    requires forall i | 0 <= i < |items| :: items[i] == CONSUMER_BUFFER_SIZE
    ensures forall p | 0 <= p < |q.buf| :: q.buf[p] >= p
    ensures forall p: nat | c.Left() + |items| <= p && OutOfPlace(r, p) :: OutOfPlace(q, p)
    ensures forall p: nat | !c.popped && p < c.backupSize && OutOfPlace(r, p) :: OutOfPlace(q, p)
  {
    PseudoAt(r, items, q);
  }

  lemma MarkedPseudo(r: Reader<nat>, c: Counts, items: seq<nat>, q: Reader<nat>, d: Counts)
    requires Marked(r, c) && Allowed(c, Arrives(false, |items|))
    requires forall i | 0 <= i < |items| :: items[i] == CONSUMER_BUFFER_SIZE
    requires d == Counted(c, Arrives(false, |items|)) && Agrees(q, d) && q == Read(r, Pseudo, items)
    ensures Marked(q, d)
  {
    NumbersGrow(r, c, items, q);
    if c.popped {
      forall p | 0 <= p < d.count ensures OutOfPlace(q, p) { AllOutOfPlace(r, c, items, q, p); }
    }
    var top := Min(d.dirty, d.backupSize);
    if top > 0 {
      if top - 1 >= c.Left() + |items| || !c.popped { assert OutOfPlace(r, top - 1); }
    }
  }

  lemma MarkedAfter(r: Reader<nat>, c: Counts, m: Move)
    requires Marked(r, c) && Allowed(c, m)
    ensures MoveOf(Marks(m)) == m && Possible(r, m) && Marked(After(r, Marks(m)), Counted(c, m))
  {
    var e := Marks(m);
    AgreesAfter(r, c, e);
    match m {
      case Pops(n) => MarkedPops(r, c, n);
      case Arrives(true, n) => MarkedRepeated(r, c, n, e.items, After(r, e));
      case Arrives(false, n) => MarkedPseudo(r, c, e.items, After(r, e), Counted(c, m));
    }
  }

  function AllMarks(moves: seq<Move>): (events: seq<Event<nat>>)
    ensures |events| == |moves|
  {
    if moves == [] then [] else [Marks(moves[0])] + AllMarks(moves[1..])
  }

  lemma {:induction false} MarkedRun(r: Reader<nat>, c: Counts, moves: seq<Move>)
    requires Marked(r, c) && AllAllowed(c, moves)
    ensures Moves(AllMarks(moves)) == moves && CanRun(r, AllMarks(moves))
    ensures Marked(Run(r, AllMarks(moves)), AllCounted(c, moves))
    decreases moves
  {
    if moves != [] {
      MarkedAfter(r, c, moves[0]);
      var events := AllMarks(moves);
      assert events[1..] == AllMarks(moves[1..]);
      MarkedRun(After(r, events[0]), Counted(c, moves[0]), moves[1..]);
    }
  }

  /** The numbers from i on. */
  function Numbers(i: nat, n: nat): (s: seq<nat>)
    ensures |s| == n && forall k | 0 <= k < n :: s[k] == i + k
  {
    seq(n, k => i + k)
  }

  /** A consumer that has just been made; what its buffers hold is arbitrary. */
  function Fresh<T>(buf: seq<T>, buf2: seq<T>): Reader<T> {
    Reader(buf, buf2, 0, 0, 0)
  }

  /** Such a consumer, whose buffers hold the numbers, after a first frame of left numbers. */
  function Numbered(left: nat): (r: Reader<nat>)
    requires left <= BACKUP_SIZE
    ensures r == Read(Fresh(Numbers(0, CONSUMER_BUFFER_SIZE), Numbers(0, BACKUP_SIZE)), New, Numbers(0, left))
    ensures r == Reader(Numbers(0, CONSUMER_BUFFER_SIZE), Numbers(0, BACKUP_SIZE), 0, left, 0)
  {
    var r := Reader(Numbers(0, CONSUMER_BUFFER_SIZE), Numbers(0, BACKUP_SIZE), 0, left, 0);
    var q := Read(Fresh(Numbers(0, CONSUMER_BUFFER_SIZE), Numbers(0, BACKUP_SIZE)), New, Numbers(0, left));
    assert q.buf == r.buf && q.buf2 == r.buf2;
    r
  }

  /** The consumer that has just been made. */
  lemma FreshClean<T>(buf: seq<T>, buf2: seq<T>)
    requires |buf| == CONSUMER_BUFFER_SIZE && |buf2| == BACKUP_SIZE
    ensures Clean(Fresh(buf, buf2), Counts(0, 0, 0, false, 0))
  {
    forall u: nat ensures CleanAt(u, Fresh(buf, buf2), Counts(0, 0, 0, false, 0)) { }
  }

  lemma NumberedMarked(left: nat, n: nat)
    requires left <= BACKUP_SIZE && left + n <= CONSUMER_BUFFER_SIZE
    ensures Marked(Read(Numbered(left), New, Numbers(left, n)), Started(left, n))
  {
  }

  lemma LostIfDirty(left: nat, n: nat, moves: seq<Move>)
    requires left <= BACKUP_SIZE && left + n <= CONSUMER_BUFFER_SIZE && AllAllowed(Started(left, n), moves)
    requires var c := AllCounted(Started(left, n), moves); c.Left() <= BACKUP_SIZE && !c.Restores()
    ensures !GetsBack(Numbered(left), Numbers(left, n), AllMarks(moves))
  {
    var r, c := Numbered(left), AllCounted(Started(left, n), moves);
    var start := Read(r, New, Numbers(left, n));
    NumberedMarked(left, n);
    NewFrameClean(r, Numbers(left, n));
    MarkedRun(start, Started(left, n), moves);
    var q := Run(start, AllMarks(moves));
    assert OutOfPlace(q, Min(c.dirty, c.backupSize) - 1);
    GottenBackAt(q);
    assert q.Saved() == start.Saved();
  }

  /**
   * left items are pending when a new frame of n items comes; then items are popped, and pseudo-frames
   * and repetitions of the frame arrive, in the numbers given. A repeated frame read next puts back the
   * pending items, whatever all the items are and whatever the buffers held, if and only if no more of
   * the places of the saved items than are copied back may have been overwritten.
   */
  lemma RestoredExactly(left: nat, n: nat, moves: seq<Move>)
    requires left <= BACKUP_SIZE && left + n <= CONSUMER_BUFFER_SIZE && AllAllowed(Started(left, n), moves)
    requires AllCounted(Started(left, n), moves).Left() <= BACKUP_SIZE
    ensures (forall r: Reader<nat>, first: seq<nat>, events: seq<Event<nat>> |
               r.Ok() && r.Left() == left && |first| == n && Moves(events) == moves :: GetsBack(r, first, events))
            <==> AllCounted(Started(left, n), moves).Restores()
  {
    var c := AllCounted(Started(left, n), moves);
    if c.Restores() {
      forall r: Reader<nat>, first: seq<nat>, events: seq<Event<nat>> |
        r.Ok() && r.Left() == left && |first| == n && Moves(events) == moves
        ensures GetsBack(r, first, events)
      {
        RestoredIfClean(r, first, events);
      }
    } else {
      LostIfDirty(left, n, moves);
      NumberedMarked(left, n);
      MarkedRun(Read(Numbered(left), New, Numbers(left, n)), Started(left, n), moves);
      assert Moves(AllMarks(moves)) == moves;
    }
  }

  /**
   * 1 is saved and popped, 2 is pending; a pseudo-frame moves 2 to where 1 stood, and once all is popped 2
   * comes back.
   */
  lemma LostAgain(saved: Reader<int>, moved: Reader<int>)
    requires saved.Ok() && saved.offs == 0 && saved.Pending() == [1, 2] && saved.Saved() == [1]
    requires Reads(saved.(offs := 1), Pseudo, [9], moved)
    ensures moved.Ok() && moved.count == 2 && moved.backupSize == 1 && moved.Pending() == [2, 9]
    ensures GottenBack(moved.(offs := 2)) == [2]
  {
    assert ReadsAt(0, saved.(offs := 1), Pseudo, [9], moved);
    PseudoAt(saved.(offs := 1), [9], moved);
    assert saved.buf[1] == saved.Pending()[1];
  }

  /**
   * 1 is saved when the frame with 2 comes, and is popped; a pseudo-frame moves 2 into its place. When
   * the frame is repeated after 2 and 9 have been popped, it is 2 that comes back.
   */
  lemma LostExample(buf: seq<int>, buf2: seq<int>)
    requires Fresh(buf, buf2).Ok()
    ensures !GetsBack(Read(Fresh(buf, buf2), New, [1]), [2], [Pop(1), Frame(false, [9]), Pop(2)])
  {
    var pending := Read(Fresh(buf, buf2), New, [1]);
    var saved := Read(pending, New, [2]);
    var moved := Read(saved.(offs := 1), Pseudo, [9]);
    NewAt(Fresh(buf, buf2), [1], pending);
    NewAt(pending, [2], saved);
    assert saved.Pending() == [1, 2] && saved.Saved() == [1];
    forall u: nat ensures ReadsAt(u, saved.(offs := 1), Pseudo, [9], moved) { }
    LostAgain(saved, moved);
    assert pending.Pending() == [1];
    var pop, pseudo, more: Event<int> := Pop(1), Frame(false, [9]), Pop(2);
    RunCons(moved, more, []);
    assert [more] + [] == [more];
    RunCons(saved.(offs := 1), pseudo, [more]);
    RunCons(saved, pop, [pseudo] + [more]);
    assert [pop] + ([pseudo] + [more]) == [pop, pseudo, more];
  }

  lemma RunCons<T>(r: Reader<T>, e: Event<T>, rest: seq<Event<T>>)
    requires r.Ok() && Possible(r, MoveOf(e)) && CanRun(After(r, e), rest)
    ensures CanRun(r, [e] + rest) && Run(r, [e] + rest) == Run(After(r, e), rest)
  {
    assert ([e] + rest)[1..] == rest;
  }

  ghost predicate NoPseudo(moves: seq<Move>) {
    forall i | 0 <= i < |moves| :: moves[i].Arrives? ==> moves[i].repeated
  }

  /** Without pseudo-frames every restore is exact. */
  lemma {:induction false} CleanWithoutPseudo(c: Counts, moves: seq<Move>)
    requires c.dirty == 0 && AllAllowed(c, moves) && NoPseudo(moves)
    ensures AllCounted(c, moves).dirty == 0 && AllCounted(c, moves).Restores()
    decreases moves
  {
    if moves != [] { CleanWithoutPseudo(Counted(c, moves[0]), moves[1..]); }
  }
}
