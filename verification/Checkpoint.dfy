/**
 * The checkpoint protocol of the cluster runtime between two reconfigurations, as a state machine:
 * threads queue checkpoints, one saver per node writes them, node servers report what is safe,
 * the control point collects the minimum, and a deleter removes older files while all this goes on.
 */
module Checkpoint {
  import Bits

  type Period = p: nat | p > 0 witness 1

  /** A checkpoint file "thread.iter". */
  datatype File = File(thread: nat, iter: nat)

  /** The saver of a node: between queue entries, about to create a file, writing it, about to announce it. */
  datatype Saver = Idle | Popped(file: File) | Writing(file: File) | Written(file: File)

  /** A node server answering an "alive" request, one thread at a time. */
  datatype Scan = NoScan | Scan(pos: nat, resp: nat, any: bool)

  /** The deleter, walking the directory with the bound it was called with. */
  datatype Deleter = NoPass | Pass(bound: nat)

  /**
   * What has survived from before: what the session of each node reported last, what each thread's node
   * announced for it, and the least the control point saw last (0 each for a new program).
   */
  datatype Past = Past(session: seq<nat>, latest: seq<nat>, last: nat)

  /**
   * What stays fixed: n threads, the node each runs on, the checkpoint period, the iteration all
   * threads started from, the files on disk at that time, which of them are whole, and what has
   * survived from before.
   */
  datatype Config = Config(
    n: nat, nodes: nat, node: seq<nat>, period: Period, start: nat, found: set<File>, whole: set<File>, past: Past) {

    ghost predicate Valid() {
      && |node| == |past.latest| == n && |past.session| == nodes && whole <= found
      && forall t | 0 <= t < n :: node[t] < nodes
    }

    /** Thread t saves its state at iteration i. */
    ghost predicate Due(t: nat, i: nat) {
      t < n && start < i && i % period == 0
    }

    /** The first iteration that is due. */
    function FirstDue(): nat {
      start - start % period + period
    }

    /**
     * Every thread can start from iteration start, and has every checkpoint from there to its newest;
     * only checkpoints it had have been announced.
     */
    ghost predicate Ready()
      requires Valid()
    {
      && (start > 0 ==> forall t: nat | t < n :: File(t, start) in found)
      && (forall f | f in found && f.iter > start :: Due(f.thread, f.iter))
      && (forall f, j: nat | f in found && Due(f.thread, j) && j < f.iter :: File(f.thread, j) in found)
      && (forall t: nat | t < n :: past.latest[t] <= Reach(t))
    }

    /** No thread runs on node k. */
    ghost predicate Spare(k: nat)
      requires Valid()
    {
      k < nodes && forall t | 0 <= t < n :: node[t] != k
    }

    /**
     * What thread t can be restarted from as long as it has saved nothing: its newest file, or its first
     * checkpoint.
     */
    ghost function Reach(t: nat): nat {
      var m := NewestOf(found, t);
      if m > 0 then m else period
    }

    /** What node k reports next is nothing thread t has not announced: it is t's node, or has no thread. */
    ghost predicate Bounds(t: nat, k: nat)
      requires Valid() && t < n
    {
      k < nodes && (k == node[t] || Spare(k))
    }

    /** Of the nodes that bound t, node k has reported least. */
    ghost predicate Lowest(t: nat, k: nat)
      requires Valid() && t < n
    {
      Bounds(t, k) && forall j: nat | Bounds(t, j) :: past.session[k] <= past.session[j]
    }

    /**
     * The control point has seen x, and can see nothing lower from other nodes than t's: not by what they
     * have reported, nor by what has been announced there, nor by what is saved there next.
     */
    ghost predicate NoRise(t: nat, x: nat)
      requires Valid() && t < n
    {
      x <= past.last && forall u: nat | u < n && node[u] != node[t] :: NotBelow(u, x)
    }

    ghost predicate NotBelow(u: nat, x: nat)
      requires Valid() && u < n
    {
      x <= past.session[node[u]] && x <= past.latest[u] && x <= FirstDue()
    }

    /** Old reports do not let the deleter pass what thread t can be restarted from. */
    ghost predicate HeldBack(t: nat)
      requires Valid() && t < n
    {
      exists k: nat :: Lowest(t, k) && (past.session[k] <= Reach(t) || NoRise(t, past.session[k]))
    }

    ghost predicate Harmless()
      requires Valid()
    {
      forall t: nat | t < n :: HeldBack(t)
    }

    /** All sessions are new. */
    ghost predicate Fresh() {
      forall k | 0 <= k < |past.session| :: past.session[k] == 0
    }

    /** x is no more than thread t has announced, or could be restarted from at the start. */
    ghost predicate Covered(t: nat, latest: nat, x: nat) {
      x <= latest || x <= Reach(t)
    }
  }

  /** The threads' progress and the savers. written is history: the files created since the start. */
  datatype Saving = Saving(steady: seq<nat>, latest: seq<nat>, pending: seq<seq<File>>, saver: seq<Saver>,
                           written: set<File>) {

    ghost predicate Shape(c: Config) {
      |steady| == |latest| == c.n && |pending| == |saver| == c.nodes
    }

    /** What node k has still to create, in order. */
    ghost function Work(k: nat): seq<File>
      requires k < |saver| == |pending|
    {
      (if saver[k].Popped? then [saver[k].file] else []) + pending[k]
    }
  }

  datatype Reports = Reports(scan: seq<Scan>, replies: seq<seq<nat>>, session: seq<nat>)

  /** The control point and the deleter. bound is history: the highest bound of any pass. */
  datatype Control = Control(last: nat, maxIter: nat, iterDone: nat, deleter: Deleter, bound: nat)

  /** complete holds the files whose writing has ended. */
  datatype Disk = Disk(files: set<File>, complete: set<File>)

  datatype State = State(saving: Saving, reports: Reports, control: Control, disk: Disk)

  /** The smallest of the sessions' values; 0 when there is none. */
  function Least(s: seq<nat>): (r: nat)
    ensures forall i | 0 <= i < |s| :: r <= s[i]
    ensures |s| > 0 ==> r in s
  {
    if |s| == 0 then 0 else if |s| == 1 then s[0] else var r := Least(s[1..]); if s[0] <= r then s[0] else r
  }

  datatype Event =
    | Iterate(thread: nat)
    | Pop(node: nat) | Create(node: nat) | Finish(node: nat) | Raise(node: nat)
    | BeginScan(node: nat) | ScanThread(node: nat) | EndScan(node: nat) | Receive(node: nat)
    | Collect | BeginPass | Unlink(file: File) | EndPass

  ghost predicate Shape(c: Config, s: State) {
    c.Valid() && s.saving.Shape(c) && |s.reports.scan| == |s.reports.replies| == |s.reports.session| == c.nodes
  }

  /** When an event can happen. */
  ghost predicate Enabled(c: Config, s: State, e: Event)
    requires Shape(c, s)
  {
    match e
    case Iterate(t) => t < c.n
    case Pop(k) => k < c.nodes && s.saving.saver[k].Idle? && |s.saving.pending[k]| > 0
    case Create(k) => k < c.nodes && s.saving.saver[k].Popped?
    case Finish(k) => k < c.nodes && s.saving.saver[k].Writing?
    case Raise(k) => k < c.nodes && s.saving.saver[k].Written? && s.saving.saver[k].file.thread < c.n
    case BeginScan(k) => k < c.nodes && s.reports.scan[k].NoScan?
    case ScanThread(k) => k < c.nodes && s.reports.scan[k].Scan? && s.reports.scan[k].pos < c.n
    case EndScan(k) => k < c.nodes && s.reports.scan[k].Scan? && s.reports.scan[k].pos == c.n
    case Receive(k) => k < c.nodes && |s.reports.replies[k]| > 0
    case Collect => true
    case BeginPass => s.control.deleter.NoPass? && s.control.iterDone < s.control.maxIter
    case Unlink(f) => s.control.deleter.Pass? && f in s.disk.files && f.iter < s.control.deleter.bound
    case EndPass => s.control.deleter.Pass?
  }

  ghost function SavingAfter(c: Config, s: Saving, e: Event): Saving
    requires c.Valid() && s.Shape(c)
    requires e.Iterate? ==> e.thread < c.n
    requires e.Pop? || e.Create? || e.Finish? || e.Raise? ==> e.node < c.nodes
    requires e.Pop? ==> |s.pending[e.node]| > 0
    requires e.Create? || e.Finish? || e.Raise? ==> !s.saver[e.node].Idle?
    requires e.Raise? ==> s.saver[e.node].file.thread < c.n
  {
    match e
    case Iterate(t) =>
      var i, k := s.steady[t] + 1, c.node[t];
      s.(steady := s.steady[t := i],
         pending := if i % c.period == 0 then s.pending[k := s.pending[k] + [File(t, i)]] else s.pending)
    case Pop(k) => s.(saver := s.saver[k := Popped(s.pending[k][0])], pending := s.pending[k := s.pending[k][1..]])
    case Create(k) => s.(saver := s.saver[k := Writing(s.saver[k].file)], written := s.written + {s.saver[k].file})
    case Finish(k) => s.(saver := s.saver[k := Written(s.saver[k].file)])
    case Raise(k) => s.(saver := s.saver[k := Idle], latest := s.latest[s.saver[k].file.thread := s.saver[k].file.iter])
    case _ => s
  }

  ghost function DiskAfter(d: Disk, saver: seq<Saver>, e: Event): Disk
    requires e.Create? || e.Finish? ==> e.node < |saver| && !saver[e.node].Idle?
  {
    match e
    case Create(k) => Disk(d.files + {saver[k].file}, d.complete - {saver[k].file})
    case Finish(k) => d.(complete := d.complete + {saver[k].file})
    case Unlink(f) => d.(files := d.files - {f})
    case _ => d
  }

  ghost function ReportsAfter(c: Config, r: Reports, latest: seq<nat>, e: Event): Reports
    requires c.Valid() && |latest| == c.n && |r.scan| == |r.replies| == |r.session| == c.nodes
    requires e.BeginScan? || e.ScanThread? || e.EndScan? || e.Receive? ==> e.node < c.nodes
    requires e.ScanThread? || e.EndScan? ==> r.scan[e.node].Scan?
    requires e.ScanThread? ==> r.scan[e.node].pos < c.n
    requires e.Receive? ==> |r.replies[e.node]| > 0
  {
    match e
    case BeginScan(k) => r.(scan := r.scan[k := Scan(0, 0, false)])
    case ScanThread(k) =>
      var Scan(pos, resp, any) := r.scan[k];
      r.(scan := r.scan[k := if c.node[pos] != k then Scan(pos + 1, resp, any)
                             else Scan(pos + 1, if latest[pos] < resp || !any then latest[pos] else resp, true)])
    case EndScan(k) => r.(scan := r.scan[k := NoScan], replies := r.replies[k := r.replies[k] + [r.scan[k].resp]])
    case Receive(k) => r.(session := r.session[k := r.replies[k][0]], replies := r.replies[k := r.replies[k][1..]])
    case _ => r
  }

  ghost function ControlAfter(x: Control, session: seq<nat>, e: Event): Control {
    match e
    case Collect =>
      var least := Least(session);
      x.(maxIter := if least > x.last then least else x.maxIter, last := least)
    case BeginPass => x.(deleter := Pass(x.maxIter), bound := if x.maxIter > x.bound then x.maxIter else x.bound)
    case EndPass => x.(deleter := NoPass, iterDone := x.maxIter)
    case _ => x
  }

  /** What an event does. */
  ghost function After(c: Config, s: State, e: Event): (s': State)
    requires Shape(c, s) && Enabled(c, s, e)
    ensures Shape(c, s')
  {
    State(SavingAfter(c, s.saving, e), ReportsAfter(c, s.reports, s.saving.latest, e),
          ControlAfter(s.control, s.reports.session, e), DiskAfter(s.disk, s.saving.saver, e))
  }

  /** All threads at their start, nothing queued or under way, and the past as c says. */
  ghost predicate Start(c: Config, s: State) {
    && Shape(c, s)
    && (forall t | 0 <= t < c.n :: s.saving.steady[t] == c.start) && s.saving.latest == c.past.latest
    && (forall k | 0 <= k < c.nodes :: s.saving.pending[k] == [] && s.saving.saver[k].Idle?)
    && (forall k | 0 <= k < c.nodes :: s.reports.scan[k].NoScan? && s.reports.replies[k] == [])
    && s.reports.session == c.past.session && s.control.last == c.past.last
    && s.saving.written == {} && s.disk == Disk(c.found, c.whole)
  }

  ghost predicate Init(c: Config, s: State) {
    Start(c, s) && c.Ready() && BoundsFound(c, s.control)
  }

  /** Whatever the deleter has been told before, it is nothing a thread cannot be restarted from. */
  ghost predicate BoundsFound(c: Config, x: Control) {
    && (x.deleter.Pass? ==> x.deleter.bound <= x.bound)
    && forall t: nat | t < c.n :: x.maxIter <= c.Reach(t) && x.bound <= c.Reach(t) && x.iterDone <= c.Reach(t)
  }

  /** A run of the protocol. */
  ghost predicate Run(c: Config, s: State, events: seq<Event>, end: State)
    requires Shape(c, s)
    decreases |events|
  {
    if |events| == 0 then end == s
    else Enabled(c, s, events[0]) && Run(c, After(c, s, events[0]), events[1..], end)
  }

  /** One event more. */
  lemma {:induction false} RunSnoc(c: Config, s: State, events: seq<Event>, mid: State, e: Event)
    requires Shape(c, s) && Run(c, s, events, mid) && Shape(c, mid) && Enabled(c, mid, e)
    ensures Run(c, s, events + [e], After(c, mid, e))
    decreases |events|
  {
    if |events| == 0 {
      assert ([e] + [])[1..] == [] && events + [e] == [e];
      assert Run(c, After(c, mid, e), [], After(c, mid, e));
    } else {
      RunSnoc(c, After(c, s, events[0]), events[1..], mid, e);
      assert (events + [e])[1..] == events[1..] + [e];
    }
  }

  // ---- What every step keeps ----

  /** Entry a of node k's work list: it is due, new, and all earlier checkpoints of its thread come before it. */
  ghost predicate EntryOk(c: Config, s: Saving, k: nat, a: nat)
    requires c.Valid() && s.Shape(c) && k < c.nodes && a < |s.Work(k)|
  {
    var f, before := s.Work(k)[a], s.Work(k)[..a];
    && c.Due(f.thread, f.iter) && c.node[f.thread] == k && f.iter <= s.steady[f.thread]
    && f !in s.written && f !in before
    && forall j: nat | c.Due(f.thread, j) && j < f.iter :: File(f.thread, j) in s.written || File(f.thread, j) in before
  }

  ghost predicate QueueOk(c: Config, s: Saving, k: nat)
    requires c.Valid() && s.Shape(c) && k < c.nodes
  {
    forall a: nat | a < |s.Work(k)| :: EntryOk(c, s, k, a)
  }

  /** Every due checkpoint of thread t is created or queued; those created form an unbroken run. */
  ghost predicate ThreadOk(c: Config, s: Saving, t: nat)
    requires c.Valid() && s.Shape(c) && t < c.n
  {
    && (forall j: nat | c.Due(t, j) && j <= s.steady[t] :: File(t, j) in s.written || File(t, j) in s.Work(c.node[t]))
    && (forall i: nat | File(t, i) in s.written :: c.Due(t, i) && i <= s.steady[t])
    && (forall i: nat, j: nat | File(t, i) in s.written && c.Due(t, j) && j < i :: File(t, j) in s.written)
    && (s.latest[t] <= c.Reach(t) || File(t, s.latest[t]) in s.written)
  }

  /** A saver's file is one of its own node's, newer than what its thread has announced since the start. */
  ghost predicate SaverOk(c: Config, s: Saving, k: nat)
    requires c.Valid() && s.Shape(c) && k < c.nodes
  {
    s.saver[k].Writing? || s.saver[k].Written? ==>
      var f := s.saver[k].file;
      && f in s.written && f.thread < c.n && c.node[f.thread] == k
      && (s.latest[f.thread] < f.iter || s.latest[f.thread] <= c.Reach(f.thread))
  }

  ghost predicate SavingOk(c: Config, s: Saving)
    requires c.Valid() && s.Shape(c)
  {
    && (forall f | f in s.written :: f.thread < c.n)
    && (forall t: nat | t < c.n :: s.steady[t] >= c.start)
    && (forall k: nat | k < c.nodes :: QueueOk(c, s, k) && SaverOk(c, s, k))
    && (forall t: nat | t < c.n :: ThreadOk(c, s, t))
  }

  /** Nothing reported for thread t in this epoch is ahead of it. */
  ghost predicate ReportOk(c: Config, r: Reports, latest: nat, t: nat)
    requires c.Valid() && |r.scan| == |r.replies| == |r.session| == c.nodes && t < c.n
  {
    var k := c.node[t];
    && (c.Covered(t, latest, r.session[k]) || r.session[k] == c.past.session[k])
    && (forall x | x in r.replies[k] :: c.Covered(t, latest, x))
    && (r.scan[k].Scan? && t < r.scan[k].pos ==> r.scan[k].any && c.Covered(t, latest, r.scan[k].resp))
  }

  /** A node without threads reports 0. */
  ghost predicate SpareOk(c: Config, r: Reports, k: nat)
    requires c.Valid() && |r.scan| == |r.replies| == |r.session| == c.nodes && k < c.nodes
  {
    && (r.session[k] == 0 || r.session[k] == c.past.session[k]) && (forall x | x in r.replies[k] :: x == 0)
    && (r.scan[k].Scan? ==> !r.scan[k].any && r.scan[k].resp == 0)
  }

  ghost predicate ReportsOk(c: Config, r: Reports, latest: seq<nat>)
    requires c.Valid() && |r.scan| == |r.replies| == |r.session| == c.nodes && |latest| == c.n
  {
    && (forall t: nat | t < c.n :: ReportOk(c, r, latest[t], t))
    && (forall k: nat | c.Spare(k) :: SpareOk(c, r, k))
  }

  ghost predicate BoundOk(c: Config, x: Control, latest: nat, t: nat) {
    c.Covered(t, latest, x.maxIter) && c.Covered(t, latest, x.iterDone) && c.Covered(t, latest, x.bound)
  }

  ghost predicate BoundsOk(c: Config, x: Control, latest: seq<nat>) {
    forall t: nat | t < |latest| :: BoundOk(c, x, latest[t], t)
  }

  /**
   * Only files below the bound have been removed. A file is whole when it was found whole or has been
   * created since, and its saver is not at it.
   */
  ghost predicate DiskOk(c: Config, d: Disk, written: set<File>, saver: seq<Saver>, bound: nat)
    requires c.Valid() && |saver| == c.nodes
  {
    && d.files <= c.found + written
    && (forall f | f in c.found + written && f.iter >= bound :: f in d.files)
    && (forall f :: f in d.complete <==> (f in written || f in c.whole) && !BeingWritten(c, saver, f))
  }

  ghost predicate BeingWritten(c: Config, saver: seq<Saver>, f: File)
    requires c.Valid() && |saver| == c.nodes
  {
    f.thread < c.n && saver[c.node[f.thread]] == Writing(f)
  }

  /** What holds whatever has been reported. */
  ghost predicate Base(c: Config, s: State) {
    && Shape(c, s) && c.Ready()
    && SavingOk(c, s.saving)
    && (s.control.deleter.Pass? ==> s.control.deleter.bound <= s.control.bound)
    && DiskOk(c, s.disk, s.saving.written, s.saving.saver, s.control.bound)
  }

  /** While a node that bounds t has not reported anew, the control point has seen x or more. */
  ghost predicate Seen(c: Config, s: State, t: nat, x: nat)
    requires Shape(c, s) && t < c.n
  {
    x <= s.control.last || exists k: nat :: c.Bounds(t, k) && c.Covered(t, s.saving.latest[t], s.reports.session[k])
  }

  /** Nothing about thread u, nor anything reported for it, is below x. */
  ghost predicate StaysAbove(c: Config, r: Reports, latest: nat, u: nat, x: nat)
    requires c.Valid() && |r.scan| == |r.replies| == |r.session| == c.nodes && u < c.n
  {
    var k := c.node[u];
    && x <= c.FirstDue() && x <= latest && x <= r.session[k] && (forall y | y in r.replies[k] :: x <= y)
    && (r.scan[k].Scan? && r.scan[k].any ==> x <= r.scan[k].resp)
    && (r.scan[k].Scan? && u < r.scan[k].pos ==> r.scan[k].any)
  }

  /** What lowest node k has reported does thread t no harm. */
  ghost predicate Holds(c: Config, s: State, t: nat, k: nat)
    requires Shape(c, s) && t < c.n && k < c.nodes
  {
    var x := c.past.session[k];
    c.Lowest(t, k) &&
    (x <= c.Reach(t) ||
     (Seen(c, s, t, x) &&
      forall u: nat | u < c.n && c.node[u] != c.node[t] :: StaysAbove(c, s.reports, s.saving.latest[u], u, x)))
  }

  ghost predicate AllHeld(c: Config, s: State)
    requires Shape(c, s)
  {
    forall t: nat | t < c.n :: Held(c, s, t)
  }

  ghost predicate Held(c: Config, s: State, t: nat)
    requires Shape(c, s) && t < c.n
  {
    exists k: nat :: k < c.nodes && Holds(c, s, t, k)
  }

  ghost predicate Inv(c: Config, s: State) {
    && Base(c, s)
    && ReportsOk(c, s.reports, s.saving.latest)
    && BoundsOk(c, s.control, s.saving.latest)
    && AllHeld(c, s)
  }

  lemma InitBase(c: Config, s: State)
    requires Init(c, s)
    ensures Base(c, s)
  {
  }

  lemma InitInv(c: Config, s: State)
    requires Init(c, s) && c.Harmless()
    ensures Inv(c, s)
  {
    InitBase(c, s);
    forall t: nat | t < c.n ensures Held(c, s, t) {
      assert c.HeldBack(t);
      var k: nat :| c.Lowest(t, k) && (c.past.session[k] <= c.Reach(t) || c.NoRise(t, c.past.session[k]));
      InitHolds(c, s, t, k);
    }
  }

  lemma InitHolds(c: Config, s: State, t: nat, k: nat)
    requires Init(c, s) && t < c.n && c.Lowest(t, k)
    requires c.past.session[k] <= c.Reach(t) || c.NoRise(t, c.past.session[k])
    ensures Holds(c, s, t, k)
  {
    var x := c.past.session[k];
    if x > c.Reach(t) {
      forall u: nat | u < c.n && c.node[u] != c.node[t] ensures StaysAbove(c, s.reports, s.saving.latest[u], u, x) {
        assert c.NotBelow(u, x);
      }
    }
  }

  // ---- The savers ----

  /** Moving a saver along without creating a file leaves queues and threads as they are. */
  lemma SameWork(c: Config, s: Saving, s': Saving)
    requires c.Valid() && s.Shape(c) && SavingOk(c, s) && s'.Shape(c)
    requires s'.steady == s.steady && s'.written == s.written
    requires forall k: nat | k < c.nodes :: s'.Work(k) == s.Work(k) && SaverOk(c, s', k)
    requires forall t: nat | t < c.n :: s'.latest[t] == s.latest[t] || File(t, s'.latest[t]) in s.written
    ensures SavingOk(c, s')
  {
    forall k: nat | k < c.nodes ensures QueueOk(c, s', k) {
      assert QueueOk(c, s, k) && s'.Work(k) == s.Work(k);
      forall a: nat | a < |s'.Work(k)| ensures EntryOk(c, s', k, a) { assert EntryOk(c, s, k, a); }
    }
    forall t: nat | t < c.n ensures ThreadOk(c, s', t) {
      assert ThreadOk(c, s, t) && s'.Work(c.node[t]) == s.Work(c.node[t]);
    }
  }

  lemma PopKeeps(c: Config, s: Saving, k: nat)
    requires c.Valid() && s.Shape(c) && SavingOk(c, s) && k < c.nodes && s.saver[k].Idle? && |s.pending[k]| > 0
    ensures SavingOk(c, SavingAfter(c, s, Pop(k)))
  {
    var s' := SavingAfter(c, s, Pop(k));
    forall x: nat | x < c.nodes ensures s'.Work(x) == s.Work(x) && SaverOk(c, s', x) { assert SaverOk(c, s, x); }
    SameWork(c, s, s');
  }

  lemma FinishKeeps(c: Config, s: Saving, k: nat)
    requires c.Valid() && s.Shape(c) && SavingOk(c, s) && k < c.nodes && s.saver[k].Writing?
    ensures SavingOk(c, SavingAfter(c, s, Finish(k)))
  {
    var s' := SavingAfter(c, s, Finish(k));
    forall x: nat | x < c.nodes ensures s'.Work(x) == s.Work(x) && SaverOk(c, s', x) { assert SaverOk(c, s, x); }
    SameWork(c, s, s');
  }

  /** What was covered by a thread's announcements remains so. */
  ghost predicate Announced(c: Config, latest: seq<nat>, latest': seq<nat>)
    requires |latest| == |latest'| == c.n
  {
    forall t: nat | t < c.n :: latest[t] <= latest'[t] || latest[t] <= c.Reach(t)
  }

  lemma RaiseKeeps(c: Config, s: Saving, k: nat)
    requires c.Valid() && s.Shape(c) && SavingOk(c, s) && k < c.nodes && s.saver[k].Written?
             && s.saver[k].file.thread < c.n
    ensures SavingOk(c, SavingAfter(c, s, Raise(k)))
    ensures Announced(c, s.latest, SavingAfter(c, s, Raise(k)).latest)
  {
    var s' := SavingAfter(c, s, Raise(k));
    assert SaverOk(c, s, k);
    forall x: nat | x < c.nodes ensures s'.Work(x) == s.Work(x) && SaverOk(c, s', x) { assert SaverOk(c, s, x); }
    SameWork(c, s, s');
  }

  lemma CreateKeeps(c: Config, s: Saving, k: nat)
    requires c.Valid() && s.Shape(c) && SavingOk(c, s) && k < c.nodes && s.saver[k].Popped?
    ensures SavingOk(c, SavingAfter(c, s, Create(k)))
    ensures s.saver[k].file.thread < c.n && c.node[s.saver[k].file.thread] == k
  {
    var s' := SavingAfter(c, s, Create(k));
    CreateEntry(c, s, k);
    forall x: nat | x < c.nodes ensures QueueOk(c, s', x) {
      assert QueueOk(c, s, x);
      if x == k { CreateQueue(c, s, k); } else {
        assert s'.Work(x) == s.Work(x);
        forall a: nat | a < |s'.Work(x)| ensures EntryOk(c, s', x, a) { assert EntryOk(c, s, x, a); }
      }
    }
    forall x: nat | x < c.nodes ensures SaverOk(c, s', x) { assert SaverOk(c, s, x); }
    forall t: nat | t < c.n ensures ThreadOk(c, s', t) { CreateThread(c, s, k, t); }
  }

  /** The file to be created is the next one of its thread, which has announced none so new since the start. */
  lemma CreateEntry(c: Config, s: Saving, k: nat)
    requires c.Valid() && s.Shape(c) && SavingOk(c, s) && k < c.nodes && s.saver[k].Popped?
    ensures var f := s.saver[k].file;
      && s.Work(k) == [f] + SavingAfter(c, s, Create(k)).Work(k)
      && c.Due(f.thread, f.iter) && c.node[f.thread] == k && f.iter <= s.steady[f.thread]
      && (forall j: nat | c.Due(f.thread, j) && j < f.iter :: File(f.thread, j) in s.written)
      && (s.latest[f.thread] < f.iter || s.latest[f.thread] <= c.Reach(f.thread))
  {
    var f := s.saver[k].file;
    assert QueueOk(c, s, k) && s.Work(k) == [f] + SavingAfter(c, s, Create(k)).Work(k);
    assert EntryOk(c, s, k, 0) && s.Work(k)[..0] == [];
    assert ThreadOk(c, s, f.thread);
  }

  lemma CreateThread(c: Config, s: Saving, k: nat, t: nat)
    requires c.Valid() && s.Shape(c) && SavingOk(c, s) && k < c.nodes && s.saver[k].Popped? && t < c.n
    ensures ThreadOk(c, SavingAfter(c, s, Create(k)), t)
  {
    CreateEntry(c, s, k);
    assert ThreadOk(c, s, t);
    if c.node[t] != k { assert SavingAfter(c, s, Create(k)).Work(c.node[t]) == s.Work(c.node[t]); }
  }

  lemma CreateQueue(c: Config, s: Saving, k: nat)
    requires c.Valid() && s.Shape(c) && SavingOk(c, s) && k < c.nodes && s.saver[k].Popped?
    ensures QueueOk(c, SavingAfter(c, s, Create(k)), k)
  {
    var s' := SavingAfter(c, s, Create(k));
    var work, f := s'.Work(k), s.saver[k].file;
    assert QueueOk(c, s, k) && s.Work(k) == [f] + work;
    forall a: nat | a < |work| ensures EntryOk(c, s', k, a) {
      assert EntryOk(c, s, k, a + 1) && s.Work(k)[..a + 1] == [f] + work[..a];
      assert f in s.Work(k)[..a + 1];
    }
  }

  lemma IterateKeeps(c: Config, s: Saving, t: nat)
    requires c.Valid() && s.Shape(c) && SavingOk(c, s) && t < c.n
    ensures SavingOk(c, SavingAfter(c, s, Iterate(t)))
  {
    var s' := SavingAfter(c, s, Iterate(t));
    forall x: nat | x < c.nodes ensures QueueOk(c, s', x) { IterateQueue(c, s, t, x); }
    forall x: nat | x < c.nodes ensures SaverOk(c, s', x) { assert SaverOk(c, s, x); }
    forall u: nat | u < c.n ensures ThreadOk(c, s', u) { IterateThread(c, s, t, u); }
  }

  lemma IterateWork(c: Config, s: Saving, t: nat, k: nat)
    requires c.Valid() && s.Shape(c) && t < c.n && k < c.nodes
    ensures var i := s.steady[t] + 1;
      SavingAfter(c, s, Iterate(t)).Work(k) ==
      if i % c.period == 0 && k == c.node[t] then s.Work(k) + [File(t, i)] else s.Work(k)
  {
    var i := s.steady[t] + 1;
    if i % c.period == 0 && k == c.node[t] {
      assert SavingAfter(c, s, Iterate(t)).Work(k) == s.Work(k) + [File(t, i)];
    }
  }

  lemma IterateQueue(c: Config, s: Saving, t: nat, k: nat)
    requires c.Valid() && s.Shape(c) && SavingOk(c, s) && t < c.n && k < c.nodes
    ensures QueueOk(c, SavingAfter(c, s, Iterate(t)), k)
  {
    var s' := SavingAfter(c, s, Iterate(t));
    IterateWork(c, s, t, k);
    assert QueueOk(c, s, k);
    forall a: nat | a < |s'.Work(k)| ensures EntryOk(c, s', k, a) {
      if a < |s.Work(k)| {
        assert EntryOk(c, s, k, a) && s'.Work(k)[..a] == s.Work(k)[..a];
      } else {
        PushEntry(c, s, t);
      }
    }
  }

  lemma IterateThread(c: Config, s: Saving, t: nat, u: nat)
    requires c.Valid() && s.Shape(c) && SavingOk(c, s) && t < c.n && u < c.n
    ensures ThreadOk(c, SavingAfter(c, s, Iterate(t)), u)
  {
    assert ThreadOk(c, s, u);
    IterateWork(c, s, t, c.node[u]);
  }

  lemma PushEntry(c: Config, s: Saving, t: nat)
    requires c.Valid() && s.Shape(c) && SavingOk(c, s) && t < c.n
    requires (s.steady[t] + 1) % c.period == 0
    ensures EntryOk(c, SavingAfter(c, s, Iterate(t)), c.node[t], |s.Work(c.node[t])|)
  {
    var s' := SavingAfter(c, s, Iterate(t));
    var k, i := c.node[t], s.steady[t] + 1;
    var before := s.Work(k);
    assert s'.Work(k) == before + [File(t, i)] && s'.Work(k)[..|before|] == before;
    assert ThreadOk(c, s, t) && QueueOk(c, s, k);
    forall a: nat | a < |before| ensures before[a] != File(t, i) { assert EntryOk(c, s, k, a); }
  }

  // ---- Reports, bounds and the disk ----

  lemma ReportKeeps(c: Config, s: State, e: Event, t: nat)
    requires Shape(c, s) && Enabled(c, s, e) && SavingAfter(c, s.saving, e).latest == s.saving.latest
    requires t < c.n && ReportOk(c, s.reports, s.saving.latest[t], t)
    ensures ReportOk(c, After(c, s, e).reports, s.saving.latest[t], t)
  {
    var r, r' := s.reports, After(c, s, e).reports;
    var k, latest := c.node[t], s.saving.latest[t];
    if e == Receive(k) { assert r.replies[k][0] in r.replies[k]; }
    forall x | x in r'.replies[k] ensures c.Covered(t, latest, x) {
      if e == Receive(k) { assert x in r.replies[k]; }
      if e == EndScan(k) { assert x in r.replies[k] || x == r.scan[k].resp; }
    }
  }

  lemma SpareKeeps(c: Config, s: State, e: Event, k: nat)
    requires Shape(c, s) && Enabled(c, s, e) && c.Spare(k) && SpareOk(c, s.reports, k)
    ensures SpareOk(c, After(c, s, e).reports, k)
  {
    var r, r' := s.reports, After(c, s, e).reports;
    if e == Receive(k) { assert r.replies[k][0] in r.replies[k]; }
    forall x | x in r'.replies[k] ensures x == 0 {
      if e == Receive(k) { assert x in r.replies[k]; }
      if e == EndScan(k) { assert x in r.replies[k] || x == r.scan[k].resp; }
    }
  }

  lemma ReportsKeep(c: Config, s: State, e: Event)
    requires Inv(c, s) && Enabled(c, s, e) && SavingAfter(c, s.saving, e).latest == s.saving.latest
    ensures ReportsOk(c, After(c, s, e).reports, s.saving.latest)
  {
    var r, r' := s.reports, After(c, s, e).reports;
    forall t: nat | t < c.n ensures ReportOk(c, r', s.saving.latest[t], t) { ReportKeeps(c, s, e, t); }
    forall k: nat | c.Spare(k) ensures SpareOk(c, r', k) { SpareKeeps(c, s, e, k); }
  }

  lemma ReportsGrow(c: Config, r: Reports, latest: seq<nat>, latest': seq<nat>)
    requires c.Valid() && |r.scan| == |r.replies| == |r.session| == c.nodes && |latest| == |latest'| == c.n
    requires ReportsOk(c, r, latest) && Announced(c, latest, latest')
    ensures ReportsOk(c, r, latest')
  {
    forall t: nat | t < c.n ensures ReportOk(c, r, latest'[t], t) {
      assert ReportOk(c, r, latest[t], t);
    }
  }

  /** A node that bounds thread t reports nothing beyond it, or still counts with its old report. */
  lemma BoundsReport(c: Config, r: Reports, latest: seq<nat>, t: nat, k: nat)
    requires c.Valid() && |r.scan| == |r.replies| == |r.session| == c.nodes && |latest| == c.n
    requires ReportsOk(c, r, latest) && t < c.n && c.Bounds(t, k)
    ensures c.Covered(t, latest[t], r.session[k]) || r.session[k] == c.past.session[k]
  {
    assert ReportOk(c, r, latest[t], t);
    if c.Spare(k) { assert SpareOk(c, r, k); }
  }

  /** Whatever mixture of old and new reports the control point sees, it raises the bound to nothing new. */
  lemma LeastCovered(c: Config, s: State, t: nat)
    requires Inv(c, s) && t < c.n && Least(s.reports.session) > s.control.last
    ensures c.Covered(t, s.saving.latest[t], Least(s.reports.session))
  {
    assert Held(c, s, t);
    var k: nat :| k < c.nodes && Holds(c, s, t, k);
    LeastCoveredBy(c, s, t, k);
  }

  lemma LeastCoveredBy(c: Config, s: State, t: nat, k: nat)
    requires Shape(c, s) && ReportsOk(c, s.reports, s.saving.latest) && t < c.n && k < c.nodes && Holds(c, s, t, k)
    requires Least(s.reports.session) > s.control.last
    ensures c.Covered(t, s.saving.latest[t], Least(s.reports.session))
  {
    BoundsReport(c, s.reports, s.saving.latest, t, k);
    assert Least(s.reports.session) <= s.reports.session[k];
    if j: nat :| c.Bounds(t, j) && c.Covered(t, s.saving.latest[t], s.reports.session[j]) {
      assert Least(s.reports.session) <= s.reports.session[j];
    }
  }

  lemma BoundsKeep(c: Config, s: State, e: Event)
    requires Inv(c, s) && Enabled(c, s, e)
    ensures BoundsOk(c, After(c, s, e).control, s.saving.latest)
  {
    var x' := After(c, s, e).control;
    forall t: nat | t < c.n ensures BoundOk(c, x', s.saving.latest[t], t) {
      assert BoundOk(c, s.control, s.saving.latest[t], t);
      if Least(s.reports.session) > s.control.last { LeastCovered(c, s, t); }
    }
  }

  lemma BoundsGrow(c: Config, x: Control, latest: seq<nat>, latest': seq<nat>)
    requires BoundsOk(c, x, latest) && |latest| == |latest'| == c.n && Announced(c, latest, latest')
    ensures BoundsOk(c, x, latest')
  {
    forall t: nat | t < |latest'| ensures BoundOk(c, x, latest'[t], t) {
      assert BoundOk(c, x, latest[t], t);
    }
  }

  // ---- What holds the deleter back goes on doing so ----

  lemma FirstDueLeast(c: Config, t: nat, i: nat)
    requires c.Due(t, i)
    ensures i >= c.FirstDue()
  {
    var p := c.period;
    if i < c.FirstDue() { Bits.ModUnique(i, p, c.start / p, i - (c.start - c.start % p)); }
  }

  lemma StaysAboveKeeps(c: Config, s: State, e: Event, u: nat, x: nat)
    requires Base(c, s) && Enabled(c, s, e) && u < c.n && StaysAbove(c, s.reports, s.saving.latest[u], u, x)
    requires forall v | 0 <= v < c.n && c.node[v] == c.node[u] :: x <= s.saving.latest[v]
    ensures StaysAbove(c, After(c, s, e).reports, After(c, s, e).saving.latest[u], u, x)
  {
    var k, s' := c.node[u], After(c, s, e);
    var r, r' := s.reports, s'.reports;
    if e.Raise? && s.saving.saver[e.node].file.thread == u {
      assert SaverOk(c, s.saving, e.node) && ThreadOk(c, s.saving, u);
      FirstDueLeast(c, u, s.saving.saver[e.node].file.iter);
    }
    if e == Receive(k) { assert r.replies[k][0] in r.replies[k]; }
    forall y | y in r'.replies[k] ensures x <= y {
      if e == Receive(k) { assert y in r.replies[k]; }
      if e == EndScan(k) { assert y in r.replies[k] || y == r.scan[k].resp; }
    }
  }

  /** A node that bounds thread t and has reported nothing beyond it never does. */
  lemma BoundedStays(c: Config, s: State, e: Event, t: nat, k: nat)
    requires Base(c, s) && ReportsOk(c, s.reports, s.saving.latest) && Enabled(c, s, e)
    requires t < c.n && c.Bounds(t, k) && c.Covered(t, s.saving.latest[t], s.reports.session[k])
    ensures c.Covered(t, After(c, s, e).saving.latest[t], After(c, s, e).reports.session[k])
  {
    StepBase(c, s, e);
    assert ReportOk(c, s.reports, s.saving.latest[t], t);
    if c.Spare(k) { assert SpareOk(c, s.reports, k); }
    if e == Receive(k) { assert s.reports.replies[k][0] in s.reports.replies[k]; }
  }

  /** Until a node that bounds thread t reports anew, the control point finds nothing below x. */
  lemma LeastAbove(c: Config, s: State, t: nat, k: nat)
    requires Inv(c, s) && t < c.n && k < c.nodes && Holds(c, s, t, k) && c.past.session[k] > c.Reach(t)
    requires !exists j: nat :: c.Bounds(t, j) && c.Covered(t, s.saving.latest[t], s.reports.session[j])
    ensures Least(s.reports.session) >= c.past.session[k]
  {
    var j: nat :| j < c.nodes && s.reports.session[j] == Least(s.reports.session);
    if c.Bounds(t, j) {
      BoundsReport(c, s.reports, s.saving.latest, t, j);
    } else {
      var u :| 0 <= u < c.n && c.node[u] == j;
      assert StaysAbove(c, s.reports, s.saving.latest[u], u, c.past.session[k]);
    }
  }

  lemma SeenKeeps(c: Config, s: State, e: Event, t: nat, k: nat)
    requires Inv(c, s) && Enabled(c, s, e) && t < c.n && k < c.nodes && Holds(c, s, t, k)
    requires c.past.session[k] > c.Reach(t)
    ensures Seen(c, After(c, s, e), t, c.past.session[k])
  {
    if j: nat :| c.Bounds(t, j) && c.Covered(t, s.saving.latest[t], s.reports.session[j]) {
      BoundedStays(c, s, e, t, j);
    } else {
      LeastAbove(c, s, t, k);
    }
  }

  lemma HoldsKeeps(c: Config, s: State, e: Event, t: nat, k: nat)
    requires Inv(c, s) && Enabled(c, s, e) && t < c.n && k < c.nodes && Holds(c, s, t, k)
    ensures Holds(c, After(c, s, e), t, k)
  {
    var x, s' := c.past.session[k], After(c, s, e);
    if x > c.Reach(t) {
      SeenKeeps(c, s, e, t, k);
      forall u: nat | u < c.n && c.node[u] != c.node[t] ensures StaysAbove(c, s'.reports, s'.saving.latest[u], u, x) {
        forall v: nat | v < c.n && c.node[v] == c.node[u] ensures x <= s.saving.latest[v] {
          assert StaysAbove(c, s.reports, s.saving.latest[v], v, x);
        }
        StaysAboveKeeps(c, s, e, u, x);
      }
    }
  }

  lemma HeldKeeps(c: Config, s: State, e: Event)
    requires Inv(c, s) && Enabled(c, s, e)
    ensures AllHeld(c, After(c, s, e))
  {
    forall t: nat | t < c.n ensures Held(c, After(c, s, e), t) {
      assert Held(c, s, t);
      var k: nat :| k < c.nodes && Holds(c, s, t, k);
      HoldsKeeps(c, s, e, t, k);
    }
  }

  lemma DiskKeeps(c: Config, s: State, e: Event)
    requires Base(c, s) && Enabled(c, s, e)
    requires e.Create? ==>
               s.saving.saver[e.node].file.thread < c.n && c.node[s.saving.saver[e.node].file.thread] == e.node
    ensures var s' := After(c, s, e);
      DiskOk(c, s'.disk, s'.saving.written, s'.saving.saver, s'.control.bound)
  {
    var s' := After(c, s, e);
    if e.Finish? || e.Raise? { assert SaverOk(c, s.saving, e.node); }
  }

  lemma StepBase(c: Config, s: State, e: Event)
    requires Base(c, s) && Enabled(c, s, e)
    ensures Base(c, After(c, s, e))
    ensures Announced(c, s.saving.latest, After(c, s, e).saving.latest)
  {
    match e {
      case Iterate(t) => IterateKeeps(c, s.saving, t);
      case Pop(k) => PopKeeps(c, s.saving, k);
      case Create(k) => CreateKeeps(c, s.saving, k);
      case Finish(k) => FinishKeeps(c, s.saving, k);
      case Raise(k) => RaiseKeeps(c, s.saving, k);
      case _ =>
    }
    DiskKeeps(c, s, e);
  }

  /** Every event keeps the invariant. */
  lemma StepInv(c: Config, s: State, e: Event)
    requires Inv(c, s) && Enabled(c, s, e)
    ensures Inv(c, After(c, s, e))
  {
    StepBase(c, s, e);
    BoundsKeep(c, s, e);
    if e.Raise? {
      ReportsGrow(c, s.reports, s.saving.latest, After(c, s, e).saving.latest);
    } else {
      ReportsKeep(c, s, e);
    }
    BoundsGrow(c, After(c, s, e).control, s.saving.latest, After(c, s, e).saving.latest);
    HeldKeeps(c, s, e);
  }

  lemma {:induction false} RunInv(c: Config, s: State, events: seq<Event>, end: State)
    requires Inv(c, s) && Run(c, s, events, end)
    ensures Inv(c, end)
    decreases |events|
  {
    if |events| > 0 {
      StepInv(c, s, events[0]);
      RunInv(c, After(c, s, events[0]), events[1..], end);
    }
  }

  // ---- Recovery ----

  /** m is the iteration of thread t's newest file, 0 if it has none. */
  ghost predicate Newest(files: set<File>, t: nat, m: nat) {
    && (m == 0 || File(t, m) in files)
    && forall f | f in files && f.thread == t :: f.iter <= m
  }

  /** What find_max_iter returns: the smallest, over all threads, of the newest file's iteration. */
  ghost predicate Recovered(files: set<File>, n: nat, r: nat) {
    && (forall t: nat, m: nat | t < n && Newest(files, t, m) :: r <= m)
    && (exists t: nat :: t < n && Newest(files, t, r))
  }

  lemma CoveredNow(c: Config, s: State, t: nat)
    requires Inv(c, s) && t < c.n
    ensures Base(c, s) && BoundOk(c, s.control, s.saving.latest[t], t)
  {
  }

  /** Whatever has been removed, a thread's newest file reaches the bound and the start. */
  lemma NewestReaches(c: Config, s: State, t: nat, m: nat)
    requires Inv(c, s) && t < c.n && Newest(s.disk.files, t, m)
    ensures m > 0 ==> m >= s.control.bound
    ensures m >= c.start
  {
    CoveredNow(c, s, t);
    NewestCovered(c, s, t, m);
  }

  lemma NewestCovered(c: Config, s: State, t: nat, m: nat)
    requires Base(c, s) && t < c.n && Newest(s.disk.files, t, m) && c.Covered(t, s.saving.latest[t], s.control.bound)
    ensures m > 0 ==> m >= s.control.bound
    ensures m >= c.start
  {
    if s.control.bound <= c.Reach(t) {
      NewestFound(c, s, t, m);
    } else {
      NewestAnnounced(c, s, t, m);
    }
  }

  lemma NewestAnnounced(c: Config, s: State, t: nat, m: nat)
    requires Base(c, s) && t < c.n && Newest(s.disk.files, t, m) && c.Reach(t) < s.control.bound <= s.saving.latest[t]
    ensures m >= s.control.bound && m >= c.start
  {
    assert ThreadOk(c, s.saving, t);
    FileKept(c, s, t, m, s.saving.latest[t]);
    StartKept(c, s, t, m);
  }

  lemma NewestFound(c: Config, s: State, t: nat, m: nat)
    requires Base(c, s) && t < c.n && Newest(s.disk.files, t, m) && s.control.bound <= c.Reach(t)
    ensures m > 0 ==> m >= s.control.bound
    ensures m >= c.start
  {
    var found := NewestOf(c.found, t);
    FileKept(c, s, t, m, found);
    if c.start > 0 { assert File(t, c.start) in c.found; }
    if m > 0 { NewestDue(c, s, t, m); }
    StartKept(c, s, t, m);
  }

  lemma StartKept(c: Config, s: State, t: nat, m: nat)
    requires Base(c, s) && t < c.n && Newest(s.disk.files, t, m)
    ensures c.start == 0 || c.start >= s.control.bound || m >= s.control.bound ==> m >= c.start
  {
    FileKept(c, s, t, m, c.start);
    if c.start > 0 { assert File(t, c.start) in c.found; }
  }

  /** A thread's newest file is no older than any file not below the bound. */
  lemma FileKept(c: Config, s: State, t: nat, m: nat, i: nat)
    requires Base(c, s) && t < c.n && Newest(s.disk.files, t, m)
    ensures i >= s.control.bound && File(t, i) in c.found + s.saving.written ==> m >= i
    ensures i < s.control.bound && m >= s.control.bound ==> m >= i
  {
    if i >= s.control.bound && File(t, i) in c.found + s.saving.written { assert File(t, i) in s.disk.files; }
  }

  /** A file is a checkpoint of this epoch, or one of those it started with. */
  lemma NewestDue(c: Config, s: State, t: nat, m: nat)
    requires Base(c, s) && t < c.n && 0 < m && File(t, m) in s.disk.files
    ensures m <= c.start || c.Due(t, m)
    ensures c.start == 0 ==> m >= c.period
  {
    assert File(t, m) in c.found + s.saving.written;
    assert ThreadOk(c, s.saving, t);
    FirstMultiple(m, c.period);
  }

  lemma FirstMultiple(m: nat, p: Period)
    requires m > 0
    ensures m % p == 0 ==> m >= p
  {
  }

  /** Below its newest file and from the bound and the start on, a thread has all its checkpoints. */
  lemma Unbroken(c: Config, s: State, t: nat, m: nat, i: nat)
    requires Inv(c, s) && t < c.n && Newest(s.disk.files, t, m)
    requires (c.Due(t, i) || i == c.start > 0) && s.control.bound <= i <= m
    ensures File(t, i) in s.disk.files
  {
    assert ThreadOk(c, s.saving, t);
    assert File(t, m) in c.found + s.saving.written;
    if i < m { assert File(t, i) in c.found + s.saving.written; }
  }

  /**
   * At every moment, even part-way through a deletion, the iteration a recovery would restart from is
   * 0 or has a file for every thread.
   */
  lemma RecoverySafe(c: Config, s: State, events: seq<Event>, end: State, r: nat)
    requires Init(c, s) && c.Harmless() && Run(c, s, events, end) && Recovered(end.disk.files, c.n, r)
    ensures r == 0 || forall t: nat | t < c.n :: File(t, r) in end.disk.files
  {
    InitInv(c, s);
    RunInv(c, s, events, end);
    if r > 0 { RecoveryPoint(c, end, r); }
  }

  lemma RecoveryPoint(c: Config, s: State, r: nat)
    requires Inv(c, s) && Recovered(s.disk.files, c.n, r) && r > 0
    ensures r >= c.start && r >= s.control.bound
    ensures forall t: nat | t < c.n :: File(t, r) in s.disk.files
  {
    var u: nat :| u < c.n && Newest(s.disk.files, u, r);
    NewestReaches(c, s, u, r);
    assert ThreadOk(c, s.saving, u);
    assert File(u, r) in c.found + s.saving.written;
    forall t: nat | t < c.n ensures File(t, r) in s.disk.files {
      var m := NewestOf(s.disk.files, t);
      Unbroken(c, s, t, m, r);
    }
  }

  /** Every thread has a newest file, or none. */
  ghost function NewestOf(files: set<File>, t: nat): (m: nat)
    ensures Newest(files, t, m)
  {
    if files == {} then 0
    else
      var f :| f in files;
      var m := NewestOf(files - {f}, t);
      if f.thread == t && f.iter > m then f.iter else m
  }

  lemma {:induction false} RunBase(c: Config, s: State, events: seq<Event>, end: State)
    requires Base(c, s) && Run(c, s, events, end)
    ensures Base(c, end)
    decreases |events|
  {
    if |events| > 0 {
      StepBase(c, s, events[0]);
      RunBase(c, After(c, s, events[0]), events[1..], end);
    }
  }

  /**
   * Whatever has been reported, and at every moment: the file of a thread, so also the one a recovery
   * would read, is whole exactly when it was found whole or has been created since, and no saver is in
   * the middle of writing it. The thread's having announced it since, or a later one that it could not
   * start with, is enough.
   */
  lemma RecoveryWhole(c: Config, s: State, events: seq<Event>, end: State, r: nat, t: nat)
    requires Init(c, s) && Run(c, s, events, end) && t < c.n
    ensures Shape(c, end)
    ensures File(t, r) in end.disk.complete <==>
            (File(t, r) in end.saving.written || File(t, r) in c.whole) &&
            end.saving.saver[c.node[t]] != Writing(File(t, r))
    ensures c.Due(t, r) && r <= end.saving.latest[t] && c.Reach(t) < end.saving.latest[t] ==>
              File(t, r) in end.disk.complete
  {
    InitBase(c, s);
    RunBase(c, s, events, end);
    if r <= end.saving.latest[t] && c.Reach(t) < end.saving.latest[t] { AnnouncedWhole(c, end.saving, t, r); }
  }

  /** A checkpoint up to one announced since the start has been created, and its saver is done with it. */
  lemma AnnouncedWhole(c: Config, s: Saving, t: nat, r: nat)
    requires c.Valid() && s.Shape(c) && SavingOk(c, s) && t < c.n && r <= s.latest[t] && c.Reach(t) < s.latest[t]
    ensures c.Due(t, r) ==> File(t, r) in s.written
    ensures s.saver[c.node[t]] != Writing(File(t, r))
  {
    assert SaverOk(c, s, c.node[t]) && ThreadOk(c, s, t);
  }

  /** A file being written is never the one removed, unless it is one that was found and is written again. */
  lemma NoWrittenFileRemoved(c: Config, s: State, k: nat, f: File)
    requires Inv(c, s) && k < c.nodes && s.saving.saver[k] == Writing(f) && f !in c.found
    ensures !Enabled(c, s, Unlink(f))
  {
    assert SaverOk(c, s.saving, k);
    assert ThreadOk(c, s.saving, f.thread);
    CoveredNow(c, s, f.thread);
    FirstMultiple(f.iter, c.period);
    assert Newest(c.found, f.thread, NewestOf(c.found, f.thread));
  }
}
