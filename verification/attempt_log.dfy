/** The supervisor's control directory, and the attempt constructed over it. */
module AttemptLog {
  import opened Results
  import M = AttemptModel

  /** Lists the directory entry by entry, in any order, up to the limit. */
  method ReadEntries(dir: M.Dir) returns (names: Option<set<M.Name>>)
    ensures names == if |dir| > M.MAX_ENTRIES || !M.Regular(dir) then None else Some(dir.Keys)
  {
    var found: set<M.Name> := {};
    var rest := dir.Keys;
    var i := 0;
    while exists entry :: entry in rest
      invariant found !! rest && found + rest == dir.Keys && i == |found| <= M.MAX_ENTRIES
      invariant forall entry :: entry in found ==> dir[entry] != M.Irregular
      decreases rest
    {
      var entry :| entry in rest;
      if i >= M.MAX_ENTRIES || dir[entry] == M.Irregular {
        MoreEntries(dir, found, entry);
        return None;
      }
      found := found + {entry};
      rest := rest - {entry};
      i := i + 1;
    }
    assert found == dir.Keys && |dir| == |dir.Keys|;
    return Some(found);
  }

  /** Consumes the pairs of files of the attempts so far. */
  method NextAttempt(dir: M.Dir, entries: set<M.Name>) returns (r: Result<nat, M.Error>)
    ensures r == M.Walk(dir, entries, 1)
  {
    var names := entries;
    var index := 1;
    while M.Started(index) in names
      invariant M.Walk(dir, names, index) == M.Walk(dir, entries, 1)
      decreases |names|
    {
      var start, stop := M.Started(index), M.Stopped(index);
      if stop !in names { return Err(M.Incomplete); }
      if !M.CleanAttempt(dir, index) { return Err(M.CannotResume); }
      Smaller(names - {start, stop}, names, start);
      names := names - {start, stop};
      index := index + 1;
    }
    if names != {} || index > M.MAX_ATTEMPTS { return Err(M.Excessive); }
    return Ok(index);
  }

  method ScanDirectory(dir: M.Dir) returns (r: Result<nat, M.Error>)
    ensures r == M.Scan(dir)
  {
    var entries := ReadEntries(dir);
    if entries.None? { return Err(M.BadDirectory); }
    r := NextAttempt(dir, entries.value - {M.Lock, M.ManifestName});
  }

  lemma MoreEntries(dir: M.Dir, names: set<M.Name>, entry: M.Name)
    requires entry in dir && entry !in names && names <= dir.Keys
    ensures |dir| > |names|
  {
    assert |dir| == |dir.Keys|;
    M.Subset(names + {entry}, dir.Keys);
  }

  lemma Smaller(a: set<M.Name>, b: set<M.Name>, x: M.Name)
    requires a <= b && x in b && x !in a
    ensures |a| < |b|
  {
    M.Subset(a + {x}, b);
  }

  class Supervisor {
    var control: Option<M.Dir>
    var process: M.Process

    function Now(): M.State
      reads this
    {
      M.State(control, process)
    }

    constructor ()
      ensures Now() == M.Run([])
    {
      control, process := None, M.Idle;
    }

    method Publish(name: M.Name, content: M.Content, fate: M.Fate) returns (alive: bool)
      requires control.Some?
      modifies this`control
      ensures alive <==> fate == M.Survives && name !in old(control).value
      ensures control == if name in old(control).value then old(control)
          else Some(M.Publish(old(control).value, name, content, fate))
    {
      if name in control.value { return false; }
      match fate {
        case LeavesNothing =>
        case LeavesTorn => control := Some(control.value[name := M.Torn]);
        case LeavesWhole => control := Some(control.value[name := content]);
        case Survives => control := Some(control.value[name := content]);
      }
      return fate == M.Survives;
    }

    method Create(manifest: int, rootExists: bool, locked: bool, fate: M.Fate) returns (r: Result<nat, M.Error>)
      requires control.None? ==> process == M.Idle
      modifies this
      ensures Now() == M.Step(old(Now()), M.Create(manifest, rootExists, locked, fate))
      ensures r.Ok? ==> process == M.Built(r.value)
    {
      hide M.Scan;
      if control.Some? || rootExists { return Err(M.AlreadyExists); }
      control := Some(map[]);
      if !locked { return Err(M.NotCreated); }
      control := Some(map[M.Lock := M.Empty]);
      var alive := Publish(M.ManifestName, M.ManifestOf(manifest), fate);
      if !alive { return Err(M.NotCreated); }
      r := ScanDirectory(control.value);
      if r.Ok? { process := M.Built(r.value); }
    }

    method Resume(manifest: int) returns (r: Result<nat, M.Error>)
      modifies this
      ensures Now() == M.Step(old(Now()), M.Resume(manifest))
      ensures r.Ok? ==> process == M.Built(r.value)
    {
      hide M.Scan;
      if control.None? { return Err(M.NotCreated); }
      if process != M.Idle { return Err(M.Locked); }
      if M.Lock !in control.value { control := Some(control.value[M.Lock := M.Empty]); }
      if M.ManifestName !in control.value || control.value[M.ManifestName] != M.ManifestOf(manifest) {
        return Err(M.Changed);
      }
      r := ScanDirectory(control.value);
      if r.Ok? { process := M.Built(r.value); }
    }

    method Begin(fate: M.Fate)
      requires process.Built? && control.Some?
      modifies this
      ensures Now() == M.Step(old(Now()), M.Start(fate))
    {
      var i := process.index;
      var alive := Publish(M.Started(i), M.StartOf(i), fate);
      process := if alive then M.Running(i) else M.Idle;
    }

    /** Reached only after the worker acknowledged the stop and exited with zero; then the lock is released. */
    method Finish(reason: M.Reason, fits: bool, fate: M.Fate)
      requires process.Running? && control.Some?
      modifies this
      ensures Now() == M.Step(old(Now()), M.Stop(reason, fits, fate))
    {
      var i := process.index;
      var _ := Publish(M.Stopped(i), M.StopContent(i, reason, fits), fate);
      process := M.Idle;
    }
  }
}
