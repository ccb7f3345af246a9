/** The attempt log of the supervisor: an append-only directory of create-exclusive files. */
module AttemptModel {
  import opened Results

  datatype Reason = OperatorStop | SessionBudgetComplete

  /** File names; the numbered ones are printed with at least four digits and so are distinct. */
  datatype Name = Lock | ManifestName | Started(n: nat) | Stopped(n: nat) | Stray(name: string)

  /** What a read finds: a torn file does not parse, one over 64 KiB is refused, and a stop may be about another
      attempt or for another reason. */
  datatype Content =
    | Empty | Torn | Oversized | Irregular
    | ManifestOf(m: int) | StartOf(attempt: nat) | StopOf(attempt: nat, reason: Reason)

  type Dir = map<Name, Content>

  datatype Error = NotCreated | AlreadyExists | Locked | Changed | BadDirectory | Incomplete | CannotResume | Excessive

  const MAX_ENTRIES := 258
  const MAX_ATTEMPTS := 128

  // ---- Reading the directory ----

  predicate CleanAttempt(dir: Dir, i: nat) {
    && Started(i) in dir && dir[Started(i)] == StartOf(i)
    && Stopped(i) in dir && dir[Stopped(i)] == StopOf(i, OperatorStop)
  }

  function Walk(dir: Dir, names: set<Name>, index: nat): Result<nat, Error>
    decreases |names|
  {
    if Started(index) in names then
      if Stopped(index) !in names then Err(Incomplete)
      else if !CleanAttempt(dir, index) then Err(CannotResume)
      else
        assert Started(index) !in names - {Started(index), Stopped(index)};
        assert names - {Started(index), Stopped(index)} < names;
        Walk(dir, names - {Started(index), Stopped(index)}, index + 1)
    else if names != {} || index > MAX_ATTEMPTS then Err(Excessive)
    else Ok(index)
  }

  predicate Regular(dir: Dir) { forall name :: name in dir ==> dir[name] != Irregular }

  /** The number of the next attempt, if the directory permits one. */
  function Scan(dir: Dir): Result<nat, Error> {
    if |dir| > MAX_ENTRIES || !Regular(dir) then Err(BadDirectory)
    else Walk(dir, dir.Keys - {Lock, ManifestName}, 1)
  }

  // ---- The state machine ----

  /** The process that holds the lock, if any. */
  datatype Process = Idle | Built(index: nat) | Running(index: nat)

  datatype State = State(control: Option<Dir>, process: Process)

  /** A publish either completes, or the process dies and leaves nothing, a torn file, or a whole one. */
  datatype Fate = Survives | LeavesNothing | LeavesTorn | LeavesWhole

  /** A stop carries the worker's last status, and may be too large to be read back. */
  datatype Event =
    | Create(manifest: int, rootExists: bool, locked: bool, fate: Fate)
    | Resume(manifest: int)
    | Start(fate: Fate)
    | Stop(reason: Reason, fits: bool, fate: Fate)
    | Quit

  const Initial := State(None, Idle)

  function Publish(dir: Dir, name: Name, content: Content, fate: Fate): Dir {
    match fate
    case LeavesNothing => dir
    case LeavesTorn => dir[name := Torn]
    case _ => dir[name := content]
  }

  function StopContent(i: nat, reason: Reason, fits: bool): Content { if fits then StopOf(i, reason) else Oversized }

  function OnCreate(s: State, e: Event): State
    requires e.Create?
  {
    if s.control.Some? || e.rootExists then s
    else if !e.locked then State(Some(map[]), Idle)
    else
      var dir := Publish(map[Lock := Empty], ManifestName, ManifestOf(e.manifest), e.fate);
      if e.fate != Survives then State(Some(dir), Idle)
      else match Scan(dir)
        case Err(_) => State(Some(dir), Idle)
        case Ok(index) => State(Some(dir), Built(index))
  }

  function OnResume(s: State, manifest: int): State {
    if s.control.None? || s.process != Idle then s
    else
      var dir := if Lock in s.control.value then s.control.value else s.control.value[Lock := Empty];
      if ManifestName !in dir || dir[ManifestName] != ManifestOf(manifest) then State(Some(dir), Idle)
      else match Scan(dir)
        case Err(_) => State(Some(dir), Idle)
        case Ok(index) => State(Some(dir), Built(index))
  }

  function Step(s: State, e: Event): State {
    match e
    case Create(_, _, _, _) => OnCreate(s, e)
    case Resume(manifest) => OnResume(s, manifest)
    case Start(fate) =>
      if !s.process.Built? || s.control.None? then s
      else
        var i := s.process.index;
        if Started(i) in s.control.value then s.(process := Idle)
        else State(Some(Publish(s.control.value, Started(i), StartOf(i), fate)),
                   if fate == Survives then Running(i) else Idle)
    case Stop(reason, fits, fate) =>
      if !s.process.Running? || s.control.None? then s
      else
        var i := s.process.index;
        if Stopped(i) in s.control.value then s.(process := Idle)
        else State(Some(Publish(s.control.value, Stopped(i), StopContent(i, reason, fits), fate)), Idle)
    case Quit => s.(process := Idle)
  }

  function Run(events: seq<Event>): State {
    if events == [] then Initial else Step(Run(events[..|events| - 1]), events[|events| - 1])
  }

  // ---- What the scan accepts ----

  predicate Numbered(name: Name, from: nat, to: nat) {
    match name
    case Started(n) => from <= n <= to
    case Stopped(n) => from <= n <= to
    case _ => false
  }

  /** Exactly the files of `k` clean attempts beside the lock and the manifest. */
  ghost predicate CleanLog(dir: Dir, k: nat) {
    && (forall name :: name in dir && name != Lock && name != ManifestName ==> Numbered(name, 1, k))
    && (forall i: nat :: 1 <= i <= k ==> CleanAttempt(dir, i))
  }

  lemma {:induction false} WalkSound(dir: Dir, names: set<Name>, index: nat)
    requires index >= 1 && Walk(dir, names, index).Ok? && forall name :: name in names ==> name in dir
    ensures var next := Walk(dir, names, index).value;
            && index <= next <= MAX_ATTEMPTS
            && (forall name :: name in names ==> Numbered(name, index, next - 1))
            && (forall i: nat :: index <= i < next ==> CleanAttempt(dir, i))
    decreases |names|
  {
    hide CleanAttempt;
    if Started(index) in names {
      var rest := names - {Started(index), Stopped(index)};
      assert Started(index) !in rest && rest < names;
      WalkSound(dir, rest, index + 1);
      forall name | name in names ensures Numbered(name, index, Walk(dir, names, index).value - 1) {
        assert name in rest || name == Started(index) || name == Stopped(index);
      }
    } else {
      assert names == {};
    }
  }

  lemma {:induction false} WalkComplete(dir: Dir, names: set<Name>, index: nat, k: nat)
    requires index <= k + 1 <= MAX_ATTEMPTS
    requires forall name :: name in names <==> Numbered(name, index, k)
    requires forall i: nat :: index <= i <= k ==> CleanAttempt(dir, i)
    ensures Walk(dir, names, index) == Ok(k + 1)
    decreases k + 1 - index
  {
    if index <= k {
      assert Started(index) in names && Stopped(index) in names && CleanAttempt(dir, index);
      WalkComplete(dir, names - {Started(index), Stopped(index)}, index + 1, k);
    } else {
      assert names == {};
    }
  }

  function Files(k: nat): set<Name> { if k == 0 then {} else Files(k - 1) + {Started(k), Stopped(k)} }

  lemma {:induction false} FilesExact(k: nat)
    ensures |Files(k)| == 2 * k && forall name :: name in Files(k) <==> Numbered(name, 1, k)
  {
    if k > 0 {
      FilesExact(k - 1);
      var pair := {Started(k), Stopped(k)};
      assert |pair| == 2 && pair !! Files(k - 1);
    }
  }

  lemma SizeBound(dir: Dir, k: nat)
    requires forall name :: name in dir && name != Lock && name != ManifestName ==> Numbered(name, 1, k)
    ensures |dir| <= 2 * k + 2
  {
    FilesExact(k);
    var all := Files(k) + {Lock, ManifestName};
    assert |all| == 2 * k + 2;
    assert dir.Keys <= all;
    Subset(dir.Keys, all);
    assert |dir| == |dir.Keys|;
  }

  lemma {:induction false} Subset(a: set<Name>, b: set<Name>)
    requires a <= b
    ensures |a| <= |b|
  {
    assert b == a + (b - a);
  }

  /** A directory permits attempt `k + 1` if and only if it records exactly `k` clean attempts, `k` below 128. The
      limit on its entries never refuses such a directory: it is implied. */
  lemma ScanExact(dir: Dir, k: nat)
    ensures Scan(dir) == Ok(k + 1) <==> Regular(dir) && CleanLog(dir, k) && k < MAX_ATTEMPTS
  {
    var names := dir.Keys - {Lock, ManifestName};
    if Scan(dir) == Ok(k + 1) {
      WalkSound(dir, names, 1);
      assert forall name :: name in dir && name != Lock && name != ManifestName ==> name in names;
    }
    if Regular(dir) && CleanLog(dir, k) && k < MAX_ATTEMPTS {
      SizeBound(dir, k);
      forall name ensures name in names <==> Numbered(name, 1, k) {
        if Numbered(name, 1, k) { assert CleanAttempt(dir, name.n); }
      }
      WalkComplete(dir, names, 1, k);
    }
  }

  lemma {:induction false} WalkOutcome(dir: Dir, names: set<Name>, index: nat, k: nat)
    requires 1 <= index <= k + 1
    requires forall name :: name in names <==>
      name in dir && name != Lock && name != ManifestName && !Numbered(name, 1, index - 1)
    requires (forall i: nat :: 1 <= i <= k ==> CleanAttempt(dir, i)) && !CleanAttempt(dir, k + 1)
    ensures Walk(dir, names, index) == FirstFault(dir, k)
    decreases k + 1 - index
  {
    if index <= k {
      assert CleanAttempt(dir, index);
      WalkOutcome(dir, names - {Started(index), Stopped(index)}, index + 1, k);
    } else if Started(index) !in dir {
      assert (forall name :: name in dir ==> Allowed(name, k)) <==> names == {} by {
        if names == {} {
          forall name | name in dir ensures Allowed(name, k) { assert name !in names; }
        } else {
          var name :| name in names;
          assert name in dir && !Allowed(name, k);
        }
      }
    }
  }

  /** A name that a log of `k` attempts may hold. */
  predicate Allowed(name: Name, k: nat) { name == Lock || name == ManifestName || Numbered(name, 1, k) }

  /** What comes of a directory whose first `k` attempts, and no more, are clean. */
  function FirstFault(dir: Dir, k: nat): Result<nat, Error> {
    if Started(k + 1) in dir && Stopped(k + 1) in dir then Err(CannotResume)
    else if Started(k + 1) in dir then Err(Incomplete)
    else if k < 128 && forall name :: name in dir ==> Allowed(name, k) then Ok(k + 1)
    else Err(Excessive)
  }

  /** The outcome for every directory: over 258 entries or an irregular one make it bad; otherwise the attempt after
      the leading clean ones decides, incomplete without a stop file, not resumable with one, and, if it has not been
      started, allowed below 128 unless the directory holds anything else. */
  lemma ScanOutcome(dir: Dir, k: nat)
    requires (forall i: nat :: 1 <= i <= k ==> CleanAttempt(dir, i)) && !CleanAttempt(dir, k + 1)
    ensures Scan(dir) == if |dir| > 258 || Irregular in dir.Values then Err(BadDirectory) else FirstFault(dir, k)
  {
    assert Regular(dir) <==> Irregular !in dir.Values;
    WalkOutcome(dir, dir.Keys - {Lock, ManifestName}, 1, k);
  }

  /** After 128 clean attempts the log is excessive, not oversized. */
  lemma FullIsExcessive(dir: Dir)
    requires Regular(dir) && CleanLog(dir, 128)
    ensures Scan(dir) == Err(Excessive)
  {
    SizeBound(dir, 128);
    assert !Numbered(Started(129), 1, 128);
    ScanOutcome(dir, 128);
  }
}
