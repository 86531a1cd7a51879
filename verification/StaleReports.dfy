/**
 * What the checkpoint protocol does with reports from before a recovery. A session that survives keeps
 * the value its node reported last; until every node has reported anew, the least over the sessions
 * mixes old values with new ones. Here is exactly when every run of the protocol stays safe.
 */
module StaleReports {
  import Bits
  import opened Checkpoint

  /** A recovery in this state would restart from nothing, or from files that are all there. */
  ghost predicate Safe(c: Config, s: State) {
    forall r: nat | Recovered(s.disk.files, c.n, r) && r > 0 :: AllThere(c, s, r)
  }

  ghost predicate AllThere(c: Config, s: State, r: nat) {
    forall t: nat | t < c.n :: File(t, r) in s.disk.files
  }

  ghost predicate Reaches(c: Config, s: State, end: State)
    requires Shape(c, s)
  {
    exists events :: Run(c, s, events, end)
  }

  ghost predicate Sound(c: Config, s: State) {
    Shape(c, s) && forall u: nat :: SoundAt(u, c, s)
  }

  ghost predicate SoundAt(unused: nat, c: Config, s: State) {
    Base(c, s)
  }

  /** One event more. */
  lemma Step(c: Config, s: State, mid: State, e: Event) returns (s': State)
    requires Shape(c, s) && Reaches(c, s, mid) && Sound(c, mid) && Enabled(c, mid, e)
    ensures s' == After(c, mid, e) && Reaches(c, s, s') && Sound(c, s')
  {
    var events :| Run(c, s, events, mid);
    RunSnoc(c, s, events, mid, e);
    s' := After(c, mid, e);
    assert SoundAt(0, c, mid);
    StepBase(c, mid, e);
    forall u: nat ensures SoundAt(u, c, s') { }
  }

  /** No checkpoint is queued, no report is under way, the deleter is idle, and no file has been removed. */
  ghost predicate Calm(c: Config, s: State) {
    && Sound(c, s)
    && (forall k | 0 <= k < c.nodes :: s.saving.pending[k] == [] && s.saving.saver[k].Idle?)
    && (forall k | 0 <= k < c.nodes :: s.reports.scan[k].NoScan? && s.reports.replies[k] == [])
    && s.control.deleter.NoPass? && s.disk.files == c.found + s.saving.written
  }

  // ---- Letting a thread progress ----

  /** The one checkpoint that is queued is saved and announced. */
  lemma Save(c: Config, s: State, mid: State, f: File) returns (s': State)
    requires Shape(c, s) && Reaches(c, s, mid) && Sound(c, mid) && f.thread < c.n
    requires var k := c.node[f.thread]; mid.saving.saver[k].Idle? && mid.saving.pending[k] == [f]
    requires mid.disk.files == c.found + mid.saving.written
    ensures Reaches(c, s, s') && Sound(c, s') && s'.reports == mid.reports && s'.control == mid.control
    ensures s'.disk.files == c.found + s'.saving.written
    ensures var k := c.node[f.thread];
      && s'.saving.pending == mid.saving.pending[k := []] && s'.saving.saver == mid.saving.saver[k := Idle]
    ensures s'.saving.steady == mid.saving.steady && s'.saving.latest == mid.saving.latest[f.thread := f.iter]
  {
    var k := c.node[f.thread];
    s' := Step(c, s, mid, Pop(k));
    s' := Step(c, s, s', Create(k));
    s' := Step(c, s, s', Finish(k));
    s' := Step(c, s, s', Raise(k));
  }

  /** Thread t makes one iteration; if that is due, its checkpoint is saved and announced. */
  lemma OneIteration(c: Config, s: State, mid: State, t: nat) returns (s': State)
    requires Shape(c, s) && Reaches(c, s, mid) && Calm(c, mid) && t < c.n
    ensures Reaches(c, s, s') && Calm(c, s') && s'.reports == mid.reports && s'.control == mid.control
    ensures var i := mid.saving.steady[t] + 1;
      && s'.saving.steady == mid.saving.steady[t := i]
      && s'.saving.latest == if i % c.period == 0 then mid.saving.latest[t := i] else mid.saving.latest
  {
    s' := Step(c, s, mid, Iterate(t));
    if (mid.saving.steady[t] + 1) % c.period == 0 {
      s' := SaveQueued(c, s, mid, t, s');
    }
  }

  /** The rest of an iteration that is due. */
  lemma SaveQueued(c: Config, s: State, mid: State, t: nat, queued: State) returns (s': State)
    requires Shape(c, s) && Reaches(c, s, queued) && Sound(c, queued) && Calm(c, mid) && t < c.n
    requires (mid.saving.steady[t] + 1) % c.period == 0 && queued == After(c, mid, Iterate(t))
    ensures Reaches(c, s, s') && Calm(c, s') && s'.reports == mid.reports && s'.control == mid.control
    ensures var i := mid.saving.steady[t] + 1;
      s'.saving.steady == mid.saving.steady[t := i] && s'.saving.latest == mid.saving.latest[t := i]
  {
    s' := Save(c, s, queued, File(t, mid.saving.steady[t] + 1));
  }

  /** Thread t goes on to iteration target. */
  lemma {:induction false} GoOn(c: Config, s: State, mid: State, t: nat, target: nat) returns (s': State)
    requires Shape(c, s) && Reaches(c, s, mid) && Calm(c, mid) && t < c.n
    requires mid.saving.steady[t] < target && target % c.period == 0
    ensures Reaches(c, s, s') && Calm(c, s') && s'.reports == mid.reports && s'.control == mid.control
    ensures s'.saving.steady == mid.saving.steady[t := target] && s'.saving.latest == mid.saving.latest[t := target]
    decreases target - mid.saving.steady[t]
  {
    s' := OneIteration(c, s, mid, t);
    if s'.saving.steady[t] < target {
      s' := GoOn(c, s, s', t, target);
    }
  }

  /** All threads below n but t0 go on to iteration target. */
  lemma {:induction false} AllGoOn(c: Config, s: State, mid: State, t0: nat, target: nat, n: nat) returns (s': State)
    requires Shape(c, s) && Reaches(c, s, mid) && Calm(c, mid) && n <= c.n && target % c.period == 0
    requires forall t | 0 <= t < n && t != t0 :: mid.saving.steady[t] < target
    ensures Reaches(c, s, s') && Calm(c, s') && s'.reports == mid.reports && s'.control == mid.control
    ensures forall t | 0 <= t < n && t != t0 :: s'.saving.steady[t] == s'.saving.latest[t] == target
    ensures forall t | 0 <= t < c.n && (t >= n || t == t0) ::
              s'.saving.steady[t] == mid.saving.steady[t] && s'.saving.latest[t] == mid.saving.latest[t]
  {
    s' := mid;
    if n > 0 {
      s' := AllGoOn(c, s, mid, t0, target, n - 1);
      if n - 1 != t0 { s' := GoOn(c, s, s', n - 1, target); }
    }
  }

  // ---- Letting a node report ----

  /** The rest of a scan of node k, on which thread u runs. */
  lemma {:induction false} ScanOn(c: Config, s: State, mid: State, k: nat, u: nat) returns (s': State)
    requires Shape(c, s) && Reaches(c, s, mid) && Sound(c, mid) && k < c.nodes && mid.reports.scan[k].Scan?
    requires u < c.n && c.node[u] == k && ScanOk(c, mid, k, u)
    ensures Reaches(c, s, s') && Sound(c, s') && s'.saving == mid.saving && s'.control == mid.control
    ensures s'.disk == mid.disk && s'.reports == mid.reports.(scan := mid.reports.scan[k := s'.reports.scan[k]])
    ensures s'.reports.scan[k].Scan? && s'.reports.scan[k].pos == c.n && ScanOk(c, s', k, u)
    decreases c.n - mid.reports.scan[k].pos
  {
    s' := mid;
    if mid.reports.scan[k].pos < c.n {
      s' := Step(c, s, mid, ScanThread(k));
      s' := ScanOn(c, s, s', k, u);
    }
  }

  /** A scan has seen at most what thread u has announced, and nothing that no thread of node k has. */
  ghost predicate ScanOk(c: Config, s: State, k: nat, u: nat)
    requires Shape(c, s) && k < c.nodes && u < c.n && c.node[u] == k && s.reports.scan[k].Scan?
  {
    var Scan(pos, resp, any) := s.reports.scan[k];
    && pos <= c.n && (u < pos ==> any && resp <= s.saving.latest[u])
    && (any ==> exists v :: 0 <= v < c.n && c.node[v] == k && resp == s.saving.latest[v])
  }

  /** Node k, on which thread u runs, reports, and the control point receives it. */
  lemma Report(c: Config, s: State, mid: State, k: nat, u: nat) returns (s': State)
    requires Shape(c, s) && Reaches(c, s, mid) && Calm(c, mid) && k < c.nodes && u < c.n && c.node[u] == k
    ensures Reaches(c, s, s') && Calm(c, s') && s'.saving == mid.saving && s'.control == mid.control
    ensures s'.reports.session == mid.reports.session[k := s'.reports.session[k]]
    ensures s'.reports.session[k] <= s'.saving.latest[u]
    ensures exists v :: 0 <= v < c.n && c.node[v] == k && s'.reports.session[k] == s'.saving.latest[v]
  {
    s' := Step(c, s, mid, BeginScan(k));
    s' := ScanOn(c, s, s', k, u);
    s' := Step(c, s, s', EndScan(k));
    s' := Step(c, s, s', Receive(k));
  }

  /** Every node below n on which threads run, except t0's, reports x. */
  lemma {:induction false} AllReport(c: Config, s: State, mid: State, t0: nat, x: nat, n: nat) returns (s': State)
    requires Shape(c, s) && Reaches(c, s, mid) && Calm(c, mid) && t0 < c.n && n <= c.nodes
    requires forall t | 0 <= t < c.n && t != t0 :: mid.saving.latest[t] == x
    ensures Reaches(c, s, s') && Calm(c, s') && s'.saving == mid.saving && s'.control == mid.control
    ensures forall k: nat | k < n && !c.Spare(k) && k != c.node[t0] :: s'.reports.session[k] == x
    ensures forall k: nat | k < c.nodes && (k >= n || c.Spare(k) || k == c.node[t0]) ::
              s'.reports.session[k] == mid.reports.session[k]
  {
    s' := mid;
    if n > 0 {
      s' := AllReport(c, s, mid, t0, x, n - 1);
      if !c.Spare(n - 1) && n - 1 != c.node[t0] {
        var u :| 0 <= u < c.n && c.node[u] == n - 1;
        s' := Report(c, s, s', n - 1, u);
      }
    }
  }

  // ---- The failing family ----

  /** Of the nodes that bound thread t, one has reported least. */
  lemma {:induction false} LowestExists(c: Config, t: nat, n: nat) returns (k: nat)
    requires c.Valid() && t < c.n && n <= c.nodes
    ensures c.Bounds(t, k) && c.past.session[k] <= c.past.session[c.node[t]]
    ensures forall j: nat | c.Bounds(t, j) && j < n :: c.past.session[k] <= c.past.session[j]
  {
    if n == 0 {
      k := c.node[t];
    } else {
      k := LowestExists(c, t, n - 1);
      if c.Bounds(t, n - 1) && c.past.session[n - 1] < c.past.session[k] { k := n - 1; }
    }
  }

  /** No node that bounds t0 has reported anew, and the deleter has not been further than t0 can be restarted from. */
  ghost predicate Ripe(c: Config, s: State, t0: nat)
    requires c.Valid() && t0 < c.n
  {
    && Calm(c, s) && s.control.iterDone <= c.Reach(t0)
    && forall k: nat | c.Bounds(t0, k) :: s.reports.session[k] == c.past.session[k]
  }

  /** The start, once the deleter is idle. */
  lemma Settle(c: Config, s: State, t0: nat) returns (s': State)
    requires Init(c, s) && t0 < c.n
    ensures Reaches(c, s, s') && Ripe(c, s', t0) && s'.saving == s.saving && s'.reports == s.reports
    ensures s'.control.last == c.past.last
  {
    InitBase(c, s);
    assert Run(c, s, [], s);
    forall u: nat ensures SoundAt(u, c, s) { }
    s' := s;
    if s.control.deleter.Pass? { s' := Step(c, s, s, EndPass); }
  }

  /** The control point looks at the reports, and finds one below x. */
  lemma SeeBelow(c: Config, s: State, mid: State, t0: nat, k: nat, x: nat) returns (s': State)
    requires Shape(c, s) && t0 < c.n && Reaches(c, s, mid) && Ripe(c, mid, t0)
    requires k < c.nodes && mid.reports.session[k] < x
    ensures Reaches(c, s, s') && Ripe(c, s', t0) && s'.saving == mid.saving && s'.control.last < x
  {
    s' := Step(c, s, mid, Collect);
    assert Least(mid.reports.session) <= mid.reports.session[k];
  }

  /** Node k, where thread u has announced less than x, reports; the control point has then seen less. */
  lemma ReportBelow(c: Config, s: State, mid: State, t0: nat, u: nat, x: nat) returns (s': State)
    requires Shape(c, s) && t0 < c.n && Reaches(c, s, mid) && Ripe(c, mid, t0)
    requires u < c.n && c.node[u] != c.node[t0] && mid.saving.latest[u] < x
    ensures Reaches(c, s, s') && Ripe(c, s', t0) && s'.saving == mid.saving && s'.control.last < x
  {
    s' := Report(c, s, mid, c.node[u], u);
    s' := SeeBelow(c, s, s', t0, c.node[u], x);
  }

  /** If not NoRise(t0, x), the control point can be made to have last seen less than x. */
  lemma Lower(c: Config, s: State, t0: nat, x: nat) returns (s': State)
    requires Init(c, s) && t0 < c.n && !c.NoRise(t0, x)
    ensures Reaches(c, s, s') && Ripe(c, s', t0) && s'.control.last < x
    ensures s'.saving.steady[t0] == c.start
    ensures forall t | 0 <= t < c.n :: s'.saving.steady[t] <= c.start + c.period
  {
    s' := Settle(c, s, t0);
    if x <= c.past.last {
      var u: nat :| u < c.n && c.node[u] != c.node[t0] && !c.NotBelow(u, x);
      if c.past.session[c.node[u]] < x {
        s' := SeeBelow(c, s, s', t0, c.node[u], x);
      } else {
        if c.past.latest[u] >= x { s' := GoOnFirst(c, s, s', t0, u); }
        s' := ReportBelow(c, s, s', t0, u, x);
      }
    }
  }

  /** Thread u goes on to its first checkpoint. */
  lemma GoOnFirst(c: Config, s: State, mid: State, t0: nat, u: nat) returns (s': State)
    requires Shape(c, s) && t0 < c.n && Reaches(c, s, mid) && Ripe(c, mid, t0)
    requires u < c.n && u != t0 && mid.saving.steady[u] == c.start
    ensures Reaches(c, s, s') && Ripe(c, s', t0) && s'.control == mid.control
    ensures s'.saving.steady == mid.saving.steady[u := c.FirstDue()] && s'.saving.latest[u] == c.FirstDue()
  {
    var first := c.FirstDue();
    Bits.ModUnique(first, c.period, c.start / c.period + 1, 0);
    s' := GoOn(c, s, mid, u, first);
  }

  /** Before the deleter is called: t0 can only be restarted from x, all others from x and later. */
  lemma SetTrap(c: Config, s: State, t0: nat) returns (s': State)
    requires Init(c, s) && t0 < c.n && !c.HeldBack(t0)
    ensures Reaches(c, s, s') && Calm(c, s') && Least(s'.reports.session) > c.Reach(t0)
    ensures s'.control.last < Least(s'.reports.session) && s'.control.iterDone <= c.Reach(t0)
    ensures s'.saving.steady[t0] == if NewestOf(c.found, t0) > 0 then c.start else c.period
    ensures forall t: nat | t < c.n && t != t0 :: s'.saving.steady[t] > c.Reach(t0) && c.Due(t, s'.saving.steady[t])
  {
    var x, p := c.Reach(t0), c.period;
    var k := LowestExists(c, t0, c.nodes);
    assert c.Lowest(t0, k);
    var v := c.past.session[k];
    s' := Lower(c, s, t0, v);
    assert c.start > 0 ==> File(t0, c.start) in c.found;
    if NewestOf(c.found, t0) == 0 {
      Bits.ModUnique(p, p, 1, 0);
      s' := GoOn(c, s, s', t0, p);
    }
    var target := MultipleAbove(x + c.start + p + v, p);
    s' := AllGoOn(c, s, s', t0, target, c.n);
    s' := AllReport(c, s, s', t0, target, c.nodes);
    forall k: nat | k < c.nodes ensures s'.reports.session[k] >= v {
      if c.Bounds(t0, k) { assert s'.reports.session[k] == c.past.session[k]; }
    }
    assert Least(s'.reports.session) in s'.reports.session;
  }

  lemma MultipleAbove(x: nat, p: Period) returns (m: nat)
    ensures m > x && m % p == 0
  {
    m := p * (x / p + 1);
    Bits.ModUnique(m, p, x / p + 1, 0);
    assert m == p * (x / p) + p;
  }

  /** When all is calm the files are those found and all that were due. */
  lemma CalmFiles(c: Config, s: State, t: nat, i: nat)
    requires Calm(c, s) && t < c.n
    ensures File(t, i) in s.disk.files <==> File(t, i) in c.found || (c.Due(t, i) && i <= s.saving.steady[t])
  {
    assert SoundAt(0, c, s) && ThreadOk(c, s.saving, t);
    assert s.saving.Work(c.node[t]) == [];
  }

  /** What t0 can be restarted from, every other thread has passed and saved. */
  lemma ReachIsSaved(c: Config, s: State, t0: nat, y: nat)
    requires Calm(c, s) && t0 < c.n && y < c.n && y != t0 && s.saving.steady[y] > c.Reach(t0)
    ensures File(y, c.Reach(t0)) in s.disk.files
  {
    var x, m := c.Reach(t0), NewestOf(c.found, t0);
    assert SoundAt(0, c, s);
    CalmFiles(c, s, y, x);
    if c.start > 0 { assert File(t0, c.start) in c.found; }
    if m == 0 { Bits.ModUnique(c.period, c.period, 1, 0); }
  }

  lemma NewestOfTrapped(c: Config, s: State, t0: nat)
    requires Calm(c, s) && t0 < c.n
    requires s.saving.steady[t0] == if NewestOf(c.found, t0) > 0 then c.start else c.period
    ensures Newest(s.disk.files, t0, c.Reach(t0))
  {
    var x := c.Reach(t0);
    assert SoundAt(0, c, s);
    CalmFiles(c, s, t0, x);
    if c.start > 0 { assert File(t0, c.start) in c.found; }
    if NewestOf(c.found, t0) == 0 { Bits.ModUnique(c.period, c.period, 1, 0); }
    forall f | f in s.disk.files && f.thread == t0 ensures f.iter <= x { CalmFiles(c, s, t0, f.iter); }
  }

  /** With that file of another thread gone, a recovery would restart from it all the same. */
  lemma TrapCloses(c: Config, s: State, t0: nat, y: nat)
    requires Calm(c, s) && t0 < c.n && y < c.n && y != t0
    requires s.saving.steady[t0] == if NewestOf(c.found, t0) > 0 then c.start else c.period
    requires forall t: nat | t < c.n && t != t0 :: s.saving.steady[t] > c.Reach(t0) && c.Due(t, s.saving.steady[t])
    ensures Recovered(s.disk.files - {File(y, c.Reach(t0))}, c.n, c.Reach(t0))
  {
    var x := c.Reach(t0);
    var files := s.disk.files - {File(y, x)};
    NewestOfTrapped(c, s, t0);
    assert Newest(files, t0, x);
    forall t: nat, m: nat | t < c.n && Newest(files, t, m) ensures x <= m {
      if t != t0 {
        CalmFiles(c, s, t, s.saving.steady[t]);
        assert File(t, s.saving.steady[t]) in files;
      }
    }
  }

  /** A thread that old reports do not hold back is enough for an unsafe run. */
  lemma Unsafe(c: Config, s: State, t0: nat) returns (end: State)
    requires Init(c, s) && c.n >= 2 && t0 < c.n && !c.HeldBack(t0)
    ensures Reaches(c, s, end) && !Safe(c, end)
  {
    var x, y := c.Reach(t0), if t0 == 0 then 1 else 0;
    var calm := SetTrap(c, s, t0);
    ReachIsSaved(c, calm, t0, y);
    TrapCloses(c, calm, t0, y);
    end := Step(c, s, calm, Collect);
    end := Step(c, s, end, BeginPass);
    end := Step(c, s, end, Unlink(File(y, x)));
    assert end.disk.files == calm.disk.files - {File(y, x)};
    assert !AllThere(c, end, x);
  }

  // ---- Exactly when ----

  ghost predicate AllRunsSafe(c: Config, s: State)
    requires Shape(c, s)
  {
    forall end | Reaches(c, s, end) :: Safe(c, end)
  }

  /** Of a single thread, what a recovery would restart from is always there. */
  lemma OneThreadSafe(c: Config, s: State)
    requires c.n <= 1
    ensures Safe(c, s)
  {
    forall r: nat | Recovered(s.disk.files, c.n, r) && r > 0 ensures AllThere(c, s, r) {
      var t: nat :| t < c.n && Newest(s.disk.files, t, r);
    }
  }

  /**
   * Every run of an epoch is safe, whatever has survived from before, if and only if there is one thread
   * or none, or old reports hold the deleter back for every thread. For a thread, look at its own node
   * and at those without threads, and take the least their sessions reported last: it is no more than
   * the thread's newest file - or, if it has none, than its first checkpoint -, or the control point has
   * last seen as much, and nothing reported, announced or saved next on the other nodes is below it.
   */
  lemma SafeIffHarmless(c: Config, s: State)
    requires Init(c, s)
    ensures AllRunsSafe(c, s) <==> c.n <= 1 || c.Harmless()
  {
    if c.n <= 1 {
      forall end | Reaches(c, s, end) ensures Safe(c, end) { OneThreadSafe(c, end); }
    } else if c.Harmless() {
      forall end | Reaches(c, s, end) ensures Safe(c, end) { HarmlessSafe(c, s, end); }
    } else {
      var t0: nat :| t0 < c.n && !c.HeldBack(t0);
      var end := Unsafe(c, s, t0);
    }
  }

  lemma HarmlessSafe(c: Config, s: State, end: State)
    requires Init(c, s) && c.Harmless() && Reaches(c, s, end)
    ensures Safe(c, end)
  {
    var events :| Run(c, s, events, end);
    forall r: nat | Recovered(end.disk.files, c.n, r) && r > 0 ensures AllThere(c, end, r) {
      RecoverySafe(c, s, events, end, r);
    }
  }

  /** New sessions are harmless. */
  lemma FreshIsHarmless(c: Config)
    requires c.Valid() && c.Fresh()
    ensures c.Harmless()
  {
    forall t: nat | t < c.n ensures c.HeldBack(t) {
      assert c.Bounds(t, c.node[t]) && c.past.session[c.node[t]] == 0;
      assert c.Lowest(t, c.node[t]);
    }
  }

  /** Every run keeps what the control point has last seen at or below the deleter's bound. */
  lemma {:induction false} LastKept(c: Config, s: State, events: seq<Event>, end: State)
    requires Shape(c, s) && Run(c, s, events, end) && s.control.last <= s.control.maxIter
    ensures Shape(c, end) && end.control.last <= end.control.maxIter
    decreases |events|
  {
    if |events| > 0 { LastKept(c, After(c, s, events[0]), events[1..], end); }
  }

  /** Thread t's own node, or one without threads, has reported nothing t cannot be restarted from. */
  ghost predicate ReportedLow(c: Config, t: nat)
    requires c.Valid() && t < c.n
  {
    exists k: nat :: c.Bounds(t, k) && c.past.session[k] <= c.Reach(t)
  }

  lemma HeldBackByReports(c: Config, x: Control, t: nat)
    requires c.Valid() && t < c.n && BoundsFound(c, x) && c.past.last <= x.maxIter
    ensures c.HeldBack(t) <==> ReportedLow(c, t)
  {
    var k := LowestExists(c, t, c.nodes);
    assert c.Lowest(t, k);
    assert c.Bounds(t, k) && x.maxIter <= c.Reach(t);
  }

  /** So in the states the control program can be in, only the reports matter. */
  lemma SafeIffReportedLow(c: Config, s: State)
    requires Init(c, s) && s.control.last <= s.control.maxIter
    ensures AllRunsSafe(c, s) <==> c.n <= 1 || forall t: nat | t < c.n :: ReportedLow(c, t)
  {
    SafeIffHarmless(c, s);
    forall t: nat | t < c.n ensures c.HeldBack(t) <==> ReportedLow(c, t) { HeldBackByReports(c, s.control, t); }
  }

  /**
   * Thread 0 had announced 30 and its node reported it, thread 1 had announced 20 on another node, which
   * has died. Both are restarted from 20 on the node that is left, whose session still reports 30, while
   * the control point has last seen 20 and had the files below removed.
   */
  ghost function Survivor(): (c: Config)
    ensures c.Valid()
  {
    var found := {File(0, 20), File(0, 30), File(1, 20)};
    Config(2, 1, [0, 0], 10, 20, found, found, Past([30], [30, 0], 20))
  }

  lemma SurvivorReaches()
    ensures Survivor().Reach(0) == 30 && Survivor().Reach(1) == 20
  {
    var found := Survivor().found;
    assert Newest(found, 0, NewestOf(found, 0)) && File(0, 30) in found;
    assert Newest(found, 1, NewestOf(found, 1)) && File(1, 20) in found;
  }

  lemma SurvivorReady()
    ensures Survivor().Ready()
  {
    SurvivorReaches();
  }

  lemma SurvivorStarts() returns (s: State)
    ensures Init(Survivor(), s) && s.control == Control(20, 20, 20, NoPass, 20)
  {
    var c := Survivor();
    SurvivorReady();
    SurvivorReaches();
    s := State(Saving([20, 20], [30, 0], [[]], [Idle], {}), Reports([NoScan], [[]], [30]),
               Control(20, 20, 20, NoPass, 20), Disk(c.found, c.whole));
  }

  /** That epoch has an unsafe run. */
  lemma StaleReportUnsafe(s: State)
    requires Init(Survivor(), s)
    ensures !AllRunsSafe(Survivor(), s)
  {
    SurvivorReaches();
    assert !Survivor().HeldBack(1);
    SafeIffHarmless(Survivor(), s);
  }
}
