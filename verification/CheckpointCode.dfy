/**
 * The code of the control point, the node server, the savers and the deleter, each against the
 * step of the checkpoint protocol it carries out.
 */
module CheckpointCode {
  import opened Checkpoint

  /** A directory entry: a name made of digits and dots, or any other name. */
  datatype Entry = Named(file: File) | Other

  ghost function FilesIn(dir: seq<Entry>): set<File> {
    set e | e in dir && e.Named? :: e.file
  }

  lemma FilesInSnoc(dir: seq<Entry>, k: nat)
    requires k < |dir|
    ensures FilesIn(dir[..k + 1]) == FilesIn(dir[..k]) + if dir[k].Named? then {dir[k].file} else {}
  {
  }

  method FindMaxIter(dir: seq<Entry>, n: nat) returns (result: nat)
    requires n > 0 && forall f | f in FilesIn(dir) :: f.thread < n
    ensures Recovered(FilesIn(dir), n, result)
  {
    var maxIter := new nat[n](i => 0);
    var k := 0;
    while k < |dir|
      invariant k <= |dir| && FilesIn(dir[..k]) <= FilesIn(dir)
      invariant forall t | 0 <= t < n :: Newest(FilesIn(dir[..k]), t, maxIter[t])
    {
      FilesInSnoc(dir, k);
      match dir[k] {
        case Named(File(thread, iter)) =>
          assert dir[k] in dir && File(thread, iter) in FilesIn(dir);
          if maxIter[thread] < iter { maxIter[thread] := iter; }
        case Other =>
      }
      k := k + 1;
    }
    assert dir[..k] == dir;
    result := maxIter[0];
    var i := 1;
    while i < n
      invariant 1 <= i <= n
      invariant forall t | 0 <= t < i :: result <= maxIter[t]
      invariant exists t: nat :: t < n && Newest(FilesIn(dir), t, result)
    {
      if maxIter[i] < result { result := maxIter[i]; }
      i := i + 1;
    }
    forall t: nat, m: nat | t < n && Newest(FilesIn(dir), t, m) ensures result <= m {
      assert Newest(FilesIn(dir), t, maxIter[t]);
    }
  }

  /** What node k's scan knows after the first pos threads. */
  ghost function Scanned(c: Config, k: nat, latest: seq<nat>, pos: nat): (r: Scan)
    requires c.Valid() && |latest| == c.n && pos <= c.n
    ensures r.Scan?
  {
    if pos == 0 then Scan(0, 0, false)
    else
      var Scan(_, resp, any) := Scanned(c, k, latest, pos - 1);
      if c.node[pos - 1] != k then Scan(pos, resp, any)
      else Scan(pos, if latest[pos - 1] < resp || !any then latest[pos - 1] else resp, true)
  }

  /** The protocol's scan, one thread at a time, while nothing is announced. */
  lemma {:induction false} ScanIsScanned(c: Config, s: State, k: nat, pos: nat) returns (events: seq<Event>, end: State)
    requires Shape(c, s) && k < c.nodes && s.reports.scan[k].NoScan? && pos <= c.n
    ensures Run(c, s, events, end) && |events| == pos + 1
    ensures end == s.(reports := s.reports.(scan := s.reports.scan[k := Scanned(c, k, s.saving.latest, pos)]))
  {
    if pos == 0 {
      events, end := [BeginScan(k)], After(c, s, BeginScan(k));
      assert Run(c, end, [], end);
    } else {
      var before, mid := ScanIsScanned(c, s, k, pos - 1);
      ScannedPos(c, k, s.saving.latest, pos - 1);
      RunSnoc(c, s, before, mid, ScanThread(k));
      events, end := before + [ScanThread(k)], After(c, mid, ScanThread(k));
    }
  }

  lemma ScannedPos(c: Config, k: nat, latest: seq<nat>, pos: nat)
    requires c.Valid() && |latest| == c.n && pos <= c.n
    ensures Scanned(c, k, latest, pos).pos == pos
  {
  }

  /** The node server's answer: the least announced checkpoint of its active threads, 0 if none is active. */
  method FindLatestCheckpoint(latest: array<nat>, active: array<bool>, ghost c: Config, ghost k: nat)
    returns (resp: nat)
    requires c.Valid() && latest.Length == active.Length == c.n
    requires forall t | 0 <= t < c.n :: active[t] <==> c.node[t] == k
    ensures resp == Scanned(c, k, latest[..], c.n).resp
    ensures forall t | 0 <= t < latest.Length && active[t] :: resp <= latest[t]
    ensures if exists t :: 0 <= t < latest.Length && active[t]
            then exists t :: 0 <= t < latest.Length && active[t] && resp == latest[t]
            else resp == 0
  {
    resp := 0;
    var any := false;
    var t := 0;
    while t < latest.Length
      invariant 0 <= t <= latest.Length
      invariant Scanned(c, k, latest[..], t) == Scan(t, resp, any)
      invariant any <==> exists u :: 0 <= u < t && active[u]
      invariant forall u | 0 <= u < t && active[u] :: resp <= latest[u]
      invariant if any then exists u :: 0 <= u < t && active[u] && resp == latest[u] else resp == 0
    {
      if active[t] {
        if latest[t] < resp || !any { resp := latest[t]; }
        any := true;
      }
      t := t + 1;
    }
  }

  lemma LeastUnique(s: seq<nat>, r: nat)
    requires if |s| == 0 then r == 0 else r in s && forall x | x in s :: r <= x
    ensures r == Least(s)
  {
  }

  /** The directory that holds the checkpoint files. */
  class Directory {
    var files: set<File>
    /** The files whose writing has ended. */
    ghost var complete: set<File>

    constructor ()
      ensures files == complete == {}
    {
      files, complete := {}, {};
    }

    method Create(f: File)
      modifies this
      ensures files == old(files) + {f} && complete == old(complete) - {f}
    {
      files, complete := files + {f}, complete - {f};
    }

    /** The contents have been written and the file closed. */
    method Finish(f: File)
      modifies this
      ensures files == old(files) && complete == old(complete) + {f}
    {
      complete := complete + {f};
    }

    /** dir is what reading the directory yields; it need not be what the directory holds by then. */
    method DeleteCheckpoints(dir: seq<Entry>, maxIter: nat)
      modifies this
      ensures files == old(files) - (set f | f in FilesIn(dir) && f.iter < maxIter) && complete == old(complete)
    {
      var k := 0;
      while k < |dir|
        invariant k <= |dir| && complete == old(complete)
        invariant files == old(files) - set f | f in FilesIn(dir[..k]) && f.iter < maxIter
      {
        FilesInSnoc(dir, k);
        if dir[k].Named? && dir[k].file.iter < maxIter { files := files - {dir[k].file}; }
        k := k + 1;
      }
      assert dir[..k] == dir;
    }
  }

  /** The control point's part: collecting the sessions' values and handing a bound to the deleter. */
  class Collector {
    var last: nat
    var maxIter: nat
    var iterDone: nat

    constructor ()
      ensures last == maxIter == iterDone == 0
    {
      last, maxIter, iterDone := 0, 0, 0;
    }

    method Gather(session: seq<nat>)
      modifies this
      ensures Control(last, maxIter, iterDone, NoPass, 0) ==
              ControlAfter(old(Control(last, maxIter, iterDone, NoPass, 0)), session, Collect)
    {
      var latest := 0;
      var any := false;
      var i := 0;
      while i < |session|
        invariant 0 <= i <= |session|
        invariant any <==> i > 0
        invariant forall j | 0 <= j < i :: latest <= session[j]
        invariant if any then latest in session[..i] else latest == 0
        invariant unchanged(this)
      {
        if session[i] < latest || !any { latest := session[i]; }
        any := true;
        assert session[..i + 1] == session[..i] + [session[i]];
        i := i + 1;
      }
      assert session[..i] == session;
      LeastUnique(session, latest);
      if latest > last { maxIter := latest; }
      last := latest;
    }

    /** One turn of the deleter; during is the bound as it may have been raised while the pass ran. */
    method Clean(disk: Directory, dir: seq<Entry>, during: nat)
      requires (disk as object) != this
      modifies this, disk
      ensures if old(iterDone < maxIter)
              then disk.files == old(disk.files) - (set f | f in FilesIn(dir) && f.iter < old(maxIter))
                  && iterDone == maxIter == during
              else disk.files == old(disk.files) && iterDone == old(iterDone) && maxIter == old(maxIter)
      ensures last == old(last)
    {
      if iterDone < maxIter {
        disk.DeleteCheckpoints(dir, maxIter);
        maxIter := during;
        iterDone := maxIter;
      }
    }
  }

  /** The heap holds what state s of the protocol says about node k's queue, the disk and the announcements. */
  ghost predicate At(c: Config, k: nat, s: State, m: SaveManager, disk: Directory, latest: array<nat>)
    reads m, disk, latest
  {
    && Shape(c, s) && k < c.nodes && (disk as object) != m && (latest as object) != m && (latest as object) != disk
    && s.saving.pending[k] == m.checkpoints && s.disk == Disk(disk.files, disk.complete)
        && s.saving.latest == latest[..]
  }

  /** The queue of checkpoints waiting for a node's saver. */
  class SaveManager {
    var checkpoints: seq<File>

    constructor ()
      ensures checkpoints == []
    {
      checkpoints := [];
    }

    /** A due iteration of thread t: its checkpoint waits behind all others of the node. */
    method PushItem(f: File, disk: Directory, latest: array<nat>, ghost c: Config, ghost k: nat, ghost s: State)
      requires At(c, k, s, this, disk, latest) && f.thread < c.n && c.node[f.thread] == k
      requires f.iter == s.saving.steady[f.thread] + 1 && f.iter % c.period == 0
      modifies this
      ensures At(c, k, After(c, s, Iterate(f.thread)), this, disk, latest)
    {
      checkpoints := checkpoints + [f];
    }

    /** The oldest checkpoint, if there is one. */
    method PopItem(disk: Directory, latest: array<nat>, ghost c: Config, ghost k: nat, ghost s: State)
      returns (found: bool, f: File)
      requires At(c, k, s, this, disk, latest) && s.saving.saver[k].Idle?
      modifies this
      ensures found == Enabled(c, s, Pop(k))
      ensures !found ==> checkpoints == old(checkpoints) == []
      ensures found ==>
                && After(c, s, Pop(k)).saving.saver[k] == Popped(f) && [f] + checkpoints == old(checkpoints)
                && At(c, k, After(c, s, Pop(k)), this, disk, latest)
    {
      if |checkpoints| > 0 {
        found, f, checkpoints := true, checkpoints[0], checkpoints[1..];
      } else {
        found, f := false, File(0, 0);
      }
    }

    /** Creates the file and writes it. */
    method SaveBuffer(f: File, disk: Directory, latest: array<nat>, ghost c: Config, ghost k: nat, ghost s: State)
      returns (ghost s': State)
      requires At(c, k, s, this, disk, latest) && s.saving.saver[k] == Popped(f)
      modifies disk
      ensures At(c, k, s', this, disk, latest) && s'.saving.saver[k] == Written(f)
      ensures Run(c, s, [Create(k), Finish(k)], s')
    {
      disk.Create(f);
      ghost var mid := After(c, s, Create(k));
      assert At(c, k, mid, this, disk, latest);
      disk.Finish(f);
      s' := After(c, mid, Finish(k));
      RunTwo(c, s, Create(k), Finish(k));
    }

    /** Only what has been written is announced. */
    method Announce(f: File, disk: Directory, latest: array<nat>, ghost c: Config, ghost k: nat, ghost s: State)
      requires At(c, k, s, this, disk, latest) && s.saving.saver[k] == Written(f) && f.thread < c.n
      modifies latest
      ensures At(c, k, After(c, s, Raise(k)), this, disk, latest)
    {
      latest[f.thread] := f.iter;
    }

    /** One turn of the saver: taken, created, written and announced, in this order; or nothing, if nothing waits. */
    method SaveOne(disk: Directory, latest: array<nat>, ghost c: Config, ghost k: nat, ghost s: State)
      returns (ghost s': State)
      requires At(c, k, s, this, disk, latest) && s.saving.saver[k].Idle?
      requires forall f | f in checkpoints :: f.thread < c.n
      modifies this, disk, latest
      ensures At(c, k, s', this, disk, latest)
      ensures if old(checkpoints) == [] then s' == s
              else Run(c, s, [Pop(k), Create(k), Finish(k), Raise(k)], s') && checkpoints == old(checkpoints)[1..]
    {
      s' := s;
      var found, f := PopItem(disk, latest, c, k, s);
      if found {
        ghost var popped := After(c, s, Pop(k));
        ghost var written := SaveBuffer(f, disk, latest, c, k, popped);
        Announce(f, disk, latest, c, k, written);
        s' := After(c, written, Raise(k));
        RunFour(c, s, Pop(k), popped, Create(k), Finish(k), written, Raise(k));
      }
    }
  }

  lemma RunTwo(c: Config, s: State, d: Event, e: Event)
    requires Shape(c, s) && Enabled(c, s, d) && Enabled(c, After(c, s, d), e)
    ensures Run(c, s, [d, e], After(c, After(c, s, d), e))
  {
    assert [d, e][1..] == [e];
    RunOne(c, After(c, s, d), e);
  }

  lemma RunOne(c: Config, s: State, e: Event)
    requires Shape(c, s) && Enabled(c, s, e)
    ensures Run(c, s, [e], After(c, s, e))
  {
    assert Run(c, After(c, s, e), [], After(c, s, e));
  }

  lemma RunFour(c: Config, s: State, d: Event, mid: State, e: Event, f: Event, late: State, g: Event)
    requires Shape(c, s) && Enabled(c, s, d) && mid == After(c, s, d) && Run(c, mid, [e, f], late)
    requires Shape(c, late) && Enabled(c, late, g)
    ensures Run(c, s, [d, e, f, g], After(c, late, g))
  {
    assert [d, e, f][1..] == [e, f];
    RunSnoc(c, s, [d, e, f], late, g);
    assert [d, e, f] + [g] == [d, e, f, g];
  }
}
