/**
 * The checkpoint protocol over the whole life of the control program: a run, a recovery from what the
 * run has left on disk, the next run, and so on.
 */
module Epochs {
  import opened Checkpoint
  import opened StaleReports

  /**
   * s is a start after a recovery from iteration r in state end. Threads may be placed anew and sessions
   * may hold anything; the files are those left behind, whole where they were, and the control point and
   * the deleter go on. What has been announced for a thread where it runs now is something it once had.
   */
  ghost predicate Follows(c: Config, end: State, r: nat, next: Config, s: State) {
    && Shape(c, end) && Start(next, s) && next.n == c.n && next.period == c.period && next.start == r
    && next.found == end.disk.files && next.whole == end.disk.files * end.disk.complete
    && s.control == end.control
    && forall t: nat | t < c.n :: c.Covered(t, end.saving.latest[t], next.past.latest[t])
  }

  // ---- What a thread can be restarted from never gets less ----

  /** A thread without a file has announced nothing since the start, and none was found for it. */
  lemma NoFile(c: Config, s: State, t: nat)
    requires Base(c, s) && t < c.n && Newest(s.disk.files, t, 0) && c.Covered(t, s.saving.latest[t], s.control.bound)
    ensures c.Reach(t) == c.period && s.saving.latest[t] <= c.period
  {
    assert ThreadOk(c, s.saving, t);
    FileKept(c, s, t, 0, s.saving.latest[t]);
    FileKept(c, s, t, 0, NewestOf(c.found, t));
  }

  lemma FoundBeyond(c: Config, s: State, t: nat, m: nat)
    requires Base(c, s) && t < c.n && 0 < m && Newest(s.disk.files, t, m) && m >= s.control.bound
    ensures c.Reach(t) <= m
  {
    FileKept(c, s, t, m, NewestOf(c.found, t));
    NewestDue(c, s, t, m);
    if c.start > 0 { assert File(t, c.start) in c.found; }
  }

  lemma AnnouncedBeyond(c: Config, s: State, t: nat, m: nat)
    requires Base(c, s) && t < c.n && 0 < m && Newest(s.disk.files, t, m) && m >= s.control.bound
    ensures s.saving.latest[t] <= m || s.saving.latest[t] <= c.Reach(t)
  {
    assert ThreadOk(c, s.saving, t);
    FileKept(c, s, t, m, s.saving.latest[t]);
  }

  /** What covered a thread is still no more than what it can be restarted from. */
  lemma ReachGrows(c: Config, s: State, t: nat, next: Config, x: nat)
    requires Inv(c, s) && t < c.n && next.found == s.disk.files && next.period == c.period
    requires c.Covered(t, s.saving.latest[t], x)
    ensures x <= next.Reach(t)
  {
    var m := NewestOf(s.disk.files, t);
    CoveredNow(c, s, t);
    NewestCovered(c, s, t, m);
    if m == 0 {
      NoFile(c, s, t);
    } else {
      FoundBeyond(c, s, t, m);
      AnnouncedBeyond(c, s, t, m);
    }
  }

  lemma BoundsReach(c: Config, s: State, t: nat, next: Config)
    requires Inv(c, s) && t < c.n && next.found == s.disk.files && next.period == c.period
    ensures s.control.maxIter <= next.Reach(t) && s.control.bound <= next.Reach(t)
    ensures s.control.iterDone <= next.Reach(t)
  {
    CoveredNow(c, s, t);
    ReachGrows(c, s, t, next, s.control.maxIter);
    ReachGrows(c, s, t, next, s.control.bound);
    ReachGrows(c, s, t, next, s.control.iterDone);
  }

  // ---- From one epoch to the next ----

  /** If a thread has no file, nothing was found at the start, and no file that is due has been removed. */
  lemma FromNothing(c: Config, s: State)
    requires Inv(c, s) && Recovered(s.disk.files, c.n, 0)
    ensures c.start == 0 && s.control.bound <= c.period
  {
    var t: nat :| t < c.n && Newest(s.disk.files, t, 0);
    CoveredNow(c, s, t);
    NewestCovered(c, s, t, 0);
    NoFile(c, s, t);
  }

  /** A recovery point is no older than the start and the bound, as far as files can be below it. */
  lemma RecoveryStart(c: Config, s: State, r: nat)
    requires Inv(c, s) && Recovered(s.disk.files, c.n, r)
    ensures c.start <= r && (r > 0 ==> forall t: nat | t < c.n :: File(t, r) in s.disk.files)
    ensures forall t: nat, i: nat | c.Due(t, i) && r < i :: i >= s.control.bound
  {
    if r > 0 {
      RecoveryPoint(c, s, r);
    } else {
      FromNothing(c, s);
      forall t: nat, i: nat | c.Due(t, i) && r < i ensures i >= s.control.bound { FirstMultiple(i, c.period); }
    }
  }

  lemma NextReady(c: Config, end: State, r: nat, next: Config, s: State)
    requires Inv(c, end) && Recovered(end.disk.files, c.n, r) && Follows(c, end, r, next, s)
    ensures next.Ready()
  {
    RecoveryStart(c, end, r);
    forall f | f in next.found && f.iter > r ensures next.Due(f.thread, f.iter) {
      if f in end.saving.written { assert ThreadOk(c, end.saving, f.thread); }
    }
    forall f, j: nat | f in next.found && next.Due(f.thread, j) && j < f.iter ensures File(f.thread, j) in next.found {
      assert c.Due(f.thread, j);
      var m := NewestOf(end.disk.files, f.thread);
      Unbroken(c, end, f.thread, m, j);
    }
    forall t: nat | t < c.n ensures next.past.latest[t] <= next.Reach(t) {
      ReachGrows(c, end, t, next, next.past.latest[t]);
    }
  }

  /**
   * Whatever one epoch has left, and wherever it was stopped, is a fit start for the next: what is on
   * disk, what the control point and the deleter have gone on with, and what the nodes have announced.
   */
  lemma NextEpoch(c: Config, s: State, events: seq<Event>, end: State, r: nat, next: Config, s': State)
    requires Init(c, s) && c.Harmless() && Run(c, s, events, end) && Recovered(end.disk.files, c.n, r)
    requires Follows(c, end, r, next, s')
    ensures Init(next, s')
  {
    InitInv(c, s);
    RunInv(c, s, events, end);
    NextReady(c, end, r, next, s');
    forall t: nat | t < next.n
      ensures s'.control.maxIter <= next.Reach(t) && s'.control.bound <= next.Reach(t)
              && s'.control.iterDone <= next.Reach(t)
    {
      BoundsReach(c, end, t, next);
    }
  }

  // ---- The whole life of the control program ----

  /** One epoch: from its start s to where a recovery stopped it. */
  datatype Epoch = Epoch(c: Config, s: State, events: seq<Event>, end: State)

  /** The program has just been started: it has removed all files and knows of nothing. */
  ghost predicate NewProgram(c: Config, s: State) {
    && Start(c, s) && c.start == 0 && c.found == c.whole == {} && c.Fresh()
    && c.past.latest == seq(c.n, _ => 0) && s.control == Control(0, 0, 0, NoPass, 0)
  }

  ghost predicate Recovers(before: Epoch, e: Epoch) {
    exists r: nat :: Recovered(before.end.disk.files, before.c.n, r) && Follows(before.c, before.end, r, e.c, e.s)
  }

  /** Epochs from the start of the program on, each but the first after a recovery from the one before. */
  ghost predicate Life(epochs: seq<Epoch>) {
    |epochs| > 0 &&
    var e := epochs[|epochs| - 1];
    && (if |epochs| == 1 then NewProgram(e.c, e.s)
        else Life(epochs[..|epochs| - 1]) && Recovers(epochs[|epochs| - 2], e))
    && Shape(e.c, e.s) && Run(e.c, e.s, e.events, e.end)
  }

  /** All epochs but the last started with harmless reports. */
  ghost predicate HarmlessBefore(epochs: seq<Epoch>) {
    forall i | 0 <= i < |epochs| - 1 :: epochs[i].c.Valid() && epochs[i].c.Harmless()
  }

  lemma NewProgramStarts(c: Config, s: State)
    requires NewProgram(c, s)
    ensures Init(c, s) && c.Harmless()
  {
    FreshIsHarmless(c);
  }

  /** Each epoch of such a life starts as an epoch of the protocol does. */
  lemma {:induction false} EpochStarts(epochs: seq<Epoch>)
    requires Life(epochs) && HarmlessBefore(epochs)
    ensures var e := epochs[|epochs| - 1]; Init(e.c, e.s) && e.s.control.last <= e.s.control.maxIter
    decreases |epochs|
  {
    var e := epochs[|epochs| - 1];
    if |epochs| == 1 {
      NewProgramStarts(e.c, e.s);
    } else {
      var before, b := epochs[..|epochs| - 1], epochs[|epochs| - 2];
      assert before[|before| - 1] == b && forall i | 0 <= i < |before| :: before[i] == epochs[i];
      EpochStarts(before);
      var r: nat :| Recovered(b.end.disk.files, b.c.n, r) && Follows(b.c, b.end, r, e.c, e.s);
      NextEpoch(b.c, b.s, b.events, b.end, r, e.c, e.s);
      LastKept(b.c, b.s, b.events, b.end);
    }
  }

  /**
   * The life of the program is safe as far as reports from before each recovery were harmless, and no
   * further: in the epoch after those, every run is safe if and only if there is one thread or none, or
   * for every thread its node, or one without threads, has reported no more than it can be restarted from.
   */
  lemma LifeSafeIff(epochs: seq<Epoch>)
    requires Life(epochs) && HarmlessBefore(epochs)
    ensures var e := epochs[|epochs| - 1];
      AllRunsSafe(e.c, e.s) <==> e.c.n <= 1 || forall t: nat | t < e.c.n :: ReportedLow(e.c, t)
  {
    var e := epochs[|epochs| - 1];
    EpochStarts(epochs);
    SafeIffReportedLow(e.c, e.s);
  }

  // ---- Torn files ----

  /**
   * A recovery can read a torn file: after one checkpoint has been queued and its file created, that
   * file is the recovery point although its writing has not ended.
   */
  lemma TornRecovery(c: Config, s: State)
    requires Init(c, s) && c.n == 1 && c.period == 1 && c.start == 0 && c.found == {}
    ensures c.node[0] < c.nodes
    ensures exists end :: Run(c, s, [Iterate(0), Pop(c.node[0]), Create(c.node[0])], end)
                       && Recovered(end.disk.files, 1, 1) && File(0, 1) !in end.disk.complete
  {
    var k := c.node[0];
    var events := [Iterate(0), Pop(k), Create(k)];
    var s1 := After(c, s, Iterate(0));
    assert s1.saving.pending[k] == [File(0, 1)];
    var s2 := After(c, s1, Pop(k));
    var s3 := After(c, s2, Create(k));
    assert events[1..] == [Pop(k), Create(k)] && events[1..][1..] == [Create(k)] && events[1..][1..][1..] == [];
    assert Run(c, s3, [], s3) && Run(c, s2, [Create(k)], s3) && Run(c, s1, [Pop(k), Create(k)], s3);
    assert s3.disk.files == {File(0, 1)};
    assert Newest(s3.disk.files, 0, 1);
  }

  /** Two threads on two nodes, every iteration due, started from nothing. */
  function Two(): (c: Config)
    ensures c.Valid()
  {
    Config(2, 2, [0, 1], 1, 0, {}, {}, Past([0, 0], [0, 0], 0))
  }

  /** The epoch after a recovery from iteration r in state end, with everything else left as it is. */
  ghost function Resumed(c: Config, end: State, r: nat): (next: Config)
    requires Shape(c, end)
    ensures next.Valid()
  {
    Config(c.n, c.nodes, c.node, c.period, r, end.disk.files, end.disk.files * end.disk.complete,
           Past(end.reports.session, end.saving.latest, end.control.last))
  }

  lemma Resume(c: Config, end: State, r: nat) returns (s: State)
    requires Shape(c, end)
    ensures Follows(c, end, r, Resumed(c, end, r), s)
  {
    var next := Resumed(c, end, r);
    s := State(Saving(seq(c.n, _ => r), end.saving.latest, seq(c.nodes, _ => []), seq(c.nodes, _ => Idle), {}),
               Reports(seq(c.nodes, _ => NoScan), seq(c.nodes, _ => []), end.reports.session),
               end.control, Disk(next.found, next.whole));
  }

  /** While all is calm, two threads on two nodes have exactly the files found and those up to where they are. */
  lemma TwoFiles(c: Config, s: State, a: nat, b: nat)
    requires Calm(c, s) && c.n == 2 && c.period == 1 && s.saving.steady == [a, b]
    ensures s.disk.files == c.found + (set i | c.start < i <= a :: File(0, i)) + set i | c.start < i <= b :: File(1, i)
  {
    var files := c.found + (set i | c.start < i <= a :: File(0, i)) + set i | c.start < i <= b :: File(1, i);
    assert SoundAt(0, c, s);
    forall f ensures f in s.disk.files <==> f in files {
      if f.thread < 2 { CalmFiles(c, s, f.thread, f.iter); } else { assert f in s.saving.written ==> f.thread < c.n; }
    }
  }

  /** Thread t makes an iteration that is due, and its saver creates the file. */
  lemma BeginSave(c: Config, s: State, mid: State, t: nat) returns (s': State)
    requires Shape(c, s) && Reaches(c, s, mid) && Calm(c, mid) && t < c.n
    requires (mid.saving.steady[t] + 1) % c.period == 0
    ensures Reaches(c, s, s') && Shape(c, s') && s'.reports == mid.reports
    ensures var f := File(t, mid.saving.steady[t] + 1);
      s'.disk.files == mid.disk.files + {f} && f !in s'.disk.complete
  {
    s' := Step(c, s, mid, Iterate(t));
    s' := Step(c, s, s', Pop(c.node[t]));
    s' := Step(c, s, s', Create(c.node[t]));
  }

  /** Both threads save iteration 1; thread 0 begins to save iteration 2, and its node dies. */
  lemma TornFirst(s: State) returns (mid: State)
    requires Init(Two(), s)
    ensures Reaches(Two(), s, mid) && Shape(Two(), mid) && mid.reports.session == [0, 0]
    ensures mid.disk.files == {File(0, 1), File(1, 1), File(0, 2)} && File(0, 2) !in mid.disk.complete
  {
    mid := BothSaved(s);
    mid := BeginSave(Two(), s, mid, 0);
  }

  lemma BothSaved(s: State) returns (mid: State)
    requires Init(Two(), s)
    ensures Reaches(Two(), s, mid) && Calm(Two(), mid) && mid.reports.session == [0, 0]
    ensures mid.saving.steady == [1, 1] && mid.disk.files == {File(0, 1), File(1, 1)}
  {
    var c := Two();
    mid := Settle(c, s, 0);
    mid := GoOn(c, s, mid, 0, 1);
    mid := GoOn(c, s, mid, 1, 1);
    TwoFiles(c, mid, 1, 1);
  }

  /** Started from iteration 1 with those files, thread 1 saves iteration 2. */
  lemma TornSecond(c: Config, s: State) returns (end: State)
    requires Init(c, s) && c.n == 2 && c.nodes == 2 && c.node == [0, 1] && c.period == 1 && c.start == 1
    requires c.found == {File(0, 1), File(1, 1), File(0, 2)} && File(0, 2) !in c.whole
    ensures Reaches(c, s, end) && Shape(c, end) && end.saving.saver[0].Idle?
    ensures end.disk.files == {File(0, 1), File(1, 1), File(0, 2), File(1, 2)} && File(0, 2) !in end.disk.complete
  {
    end := Settle(c, s, 0);
    end := GoOn(c, s, end, 1, 2);
    TwoFiles(c, end, 1, 2);
    assert SoundAt(0, c, end) && ThreadOk(c, end.saving, 0);
  }

  /**
   * A torn file outlives the saver that was at it: left behind by one epoch, it is what a recovery in
   * the next would read, although no saver is at it.
   */
  lemma TornLater(s: State) returns (mid: State, s': State, end: State)
    requires Init(Two(), s)
    ensures Reaches(Two(), s, mid) && Shape(Two(), mid) && Recovered(mid.disk.files, 2, 1)
    ensures var next := Resumed(Two(), mid, 1);
      && Follows(Two(), mid, 1, next, s') && Init(next, s') && next.Harmless()
      && Reaches(next, s', end) && Shape(next, end) && Recovered(end.disk.files, 2, 2)
      && end.saving.saver[0].Idle? && File(0, 2) !in end.disk.complete
  {
    mid := TornFirst(s);
    TwoRecovered(mid.disk.files, 2, 1);
    s' := ResumeTwo(s, mid);
    end := TornSecond(Resumed(Two(), mid, 1), s');
    TwoRecovered(end.disk.files, 2, 2);
  }

  lemma TwoRecovered(files: set<File>, a: nat, b: nat)
    requires b <= a && Newest(files, 0, a) && Newest(files, 1, b)
    ensures Recovered(files, 2, b)
  {
  }

  lemma ResumeTwo(s: State, mid: State) returns (s': State)
    requires Init(Two(), s) && Reaches(Two(), s, mid) && Shape(Two(), mid) && mid.reports.session == [0, 0]
    requires Recovered(mid.disk.files, 2, 1)
    ensures var next := Resumed(Two(), mid, 1);
      Follows(Two(), mid, 1, next, s') && Init(next, s') && next.Harmless()
  {
    s' := Resume(Two(), mid, 1);
    FreshIsHarmless(Two());
    FreshIsHarmless(Resumed(Two(), mid, 1));
    var events :| Run(Two(), s, events, mid);
    NextEpoch(Two(), s, events, mid, 1, Resumed(Two(), mid, 1), s');
  }
}
