/** The attempt log over every history of creations, resumptions, stops and crashes. */
module AttemptRuns {
  import opened Results
  import opened AttemptModel

  /** Attempts 1..k have started, in order, and all but the last are clean. */
  ghost predicate Recorded(dir: Dir, k: nat) {
    && k <= MAX_ATTEMPTS
    && (forall name :: name in dir && name != Lock && name != ManifestName ==> Numbered(name, 1, k))
    && (forall i: nat :: 1 <= i < k ==> CleanAttempt(dir, i))
    && (k > 0 ==> Started(k) in dir && dir[Started(k)] in {StartOf(k), Torn})
    && (Stopped(k) in dir ==>
          dir[Started(k)] == StartOf(k)
          && dir[Stopped(k)] in {StopOf(k, OperatorStop), StopOf(k, SessionBudgetComplete), Torn, Oversized})
    && (Lock in dir ==> dir[Lock] == Empty)
    && (ManifestName in dir ==> dir[ManifestName] == Torn || dir[ManifestName].ManifestOf?)
    && (k > 0 ==> ManifestName in dir && dir[ManifestName].ManifestOf?)
  }

  /** The whole log is clean: one more attempt may be constructed, room permitting. */
  ghost predicate Clean(dir: Dir, k: nat) { Recorded(dir, k) && (k > 0 ==> CleanAttempt(dir, k)) }

  ghost predicate Good(s: State, k: nat) {
    match s.control
    case None => s.process == Idle && k == 0
    case Some(dir) =>
      && Recorded(dir, k)
      && match s.process {
           case Idle => true
           case Built(i) => Clean(dir, k) && i == k + 1 <= MAX_ATTEMPTS && ManifestName in dir
               && dir[ManifestName].ManifestOf?
           case Running(i) => i == k > 0 && dir[Started(k)] == StartOf(k) && Stopped(k) !in dir
         }
  }

  lemma CleanIsCleanLog(dir: Dir, k: nat)
    requires Recorded(dir, k)
    ensures CleanLog(dir, k) <==> Clean(dir, k)
    ensures Regular(dir)
  {
    if Clean(dir, k) {
      forall i: nat | 1 <= i <= k ensures CleanAttempt(dir, i) {}
    }
    forall name | name in dir ensures dir[name] != Irregular {
      if (name.Started? || name.Stopped?) && name.n < k { assert CleanAttempt(dir, name.n); }
    }
  }

  /** In a reachable directory the next attempt is permitted exactly when the last one ended by an operator stop
      and fewer than 128 have been made. */
  lemma ScanRecorded(dir: Dir, k: nat)
    requires Recorded(dir, k)
    ensures if Clean(dir, k) && k < MAX_ATTEMPTS then Scan(dir) == Ok(k + 1) else Scan(dir).Err?
    ensures |dir| <= MAX_ENTRIES
  {
    hide Scan, Recorded;
    CleanIsCleanLog(dir, k);
    ScanExact(dir, k);
    SizeBound(dir, k) by { RecordedNames(dir, k); }
    RecordedBound(dir, k);
    if Scan(dir).Ok? {
      ScanPositive(dir);
      var j: nat := Scan(dir).value - 1;
      ScanExact(dir, j);
      SameCount(dir, j, k);
    }
  }

  lemma RecordedNames(dir: Dir, k: nat)
    requires Recorded(dir, k)
    ensures forall name :: name in dir && name != Lock && name != ManifestName ==> Numbered(name, 1, k)
  {
  }

  lemma RecordedBound(dir: Dir, k: nat)
    requires Recorded(dir, k)
    ensures k <= MAX_ATTEMPTS
  {
  }

  lemma ScanPositive(dir: Dir)
    requires Scan(dir).Ok?
    ensures Scan(dir).value >= 1
  {
    WalkSound(dir, dir.Keys - {Lock, ManifestName}, 1);
  }

  lemma SameCount(dir: Dir, j: nat, k: nat)
    requires Recorded(dir, k) && CleanLog(dir, j)
    ensures j == k
  {
    assert k > 0 ==> Numbered(Started(k), 1, j);
    assert j > 0 ==> CleanAttempt(dir, j) && Numbered(Started(j), 1, k);
  }

  // ---- Every step ----

  /** The number of recorded attempts after a step. */
  function Attempts(s: State, e: Event, k: nat): nat {
    if e.Start? && s.process.Built? && s.control.Some? && e.fate != LeavesNothing then k + 1 else k
  }

  lemma CreateGood(s: State, e: Event, k: nat)
    requires Good(s, k) && e.Create?
    ensures Good(Step(s, e), k)
  {
    if s.control.None? && !e.rootExists && e.locked {
      hide Scan;
      var dir := Publish(map[Lock := Empty], ManifestName, ManifestOf(e.manifest), e.fate);
      assert Recorded(dir, 0);
      ScanRecorded(dir, 0);
    }
  }

  lemma ResumeGood(s: State, manifest: int, k: nat)
    requires Good(s, k)
    ensures Good(OnResume(s, manifest), k)
  {
    if s.control.Some? && s.process == Idle {
      hide Scan;
      var dir := if Lock in s.control.value then s.control.value else s.control.value[Lock := Empty];
      LockKeeps(s.control.value, k);
      ScanRecorded(dir, k);
    }
  }

  lemma LockKeeps(dir: Dir, k: nat)
    requires Recorded(dir, k)
    ensures Recorded(dir[Lock := Empty], k) && (Clean(dir, k) <==> Clean(dir[Lock := Empty], k))
  {
    var dir' := dir[Lock := Empty];
    forall i: nat | 1 <= i < k ensures CleanAttempt(dir', i) { assert CleanAttempt(dir, i); }
    assert CleanAttempt(dir', k) <==> CleanAttempt(dir, k);
  }

  lemma StartGood(s: State, fate: Fate, k: nat)
    requires Good(s, k) && s.process.Built?
    ensures Started(k + 1) !in s.control.value
    ensures Good(Step(s, Start(fate)), Attempts(s, Start(fate), k))
  {
    var dir := s.control.value;
    assert !Numbered(Started(k + 1), 1, k) && !Numbered(Stopped(k + 1), 1, k);
    if fate != LeavesNothing {
      var dir' := Publish(dir, Started(k + 1), StartOf(k + 1), fate);
      forall i: nat | 1 <= i < k + 1 ensures CleanAttempt(dir', i) { assert CleanAttempt(dir, i); }
      forall name | name in dir' && name != Lock && name != ManifestName ensures Numbered(name, 1, k + 1) {
        if name in dir { assert Numbered(name, 1, k); }
      }
      assert Recorded(dir', k + 1);
    }
  }

  lemma StopGood(s: State, reason: Reason, fits: bool, fate: Fate, k: nat)
    requires Good(s, k) && s.process.Running?
    ensures Good(Step(s, Stop(reason, fits, fate)), k)
  {
    var dir := s.control.value;
    var dir' := Publish(dir, Stopped(k), StopContent(k, reason, fits), fate);
    forall i: nat | 1 <= i < k ensures CleanAttempt(dir', i) { assert CleanAttempt(dir, i); }
    assert Recorded(dir', k);
  }

  lemma StepGood(s: State, e: Event, k: nat)
    requires Good(s, k)
    ensures Good(Step(s, e), Attempts(s, e, k))
  {
    match e
    case Create(_, _, _, _) => CreateGood(s, e, k);
    case Resume(manifest) => ResumeGood(s, manifest, k);
    case Start(fate) => if s.process.Built? { StartGood(s, fate, k); }
    case Stop(reason, fits, fate) => if s.process.Running? { StopGood(s, reason, fits, fate, k); }
    case Quit =>
  }

  function Count(events: seq<Event>): nat {
    if events == [] then 0 else
      var init := events[..|events| - 1];
      Attempts(Run(init), events[|events| - 1], Count(init))
  }

  /** In every history attempts are numbered 1..k, at most 128, all but the last stopped by the operator; an attempt
      counts from its start file, so constructing without starting leaves no trace. */
  lemma {:induction false} RunGood(events: seq<Event>)
    ensures Good(Run(events), Count(events))
  {
    if events != [] {
      RunGood(events[..|events| - 1]);
      StepGood(Run(events[..|events| - 1]), events[|events| - 1], Count(events[..|events| - 1]));
    }
  }

  // ---- Resumption ----

  /** An explicit resume succeeds if and only if nothing holds the lock, the manifest is unchanged, every attempt so
      far ended by an operator stop, and fewer than 128 were made. */
  lemma ResumeExactly(events: seq<Event>, manifest: int)
    ensures var s, k := Run(events), Count(events);
            (s.process == Idle && OnResume(s, manifest).process.Built?) <==>
              && s.process == Idle && s.control.Some?
              && ManifestName in s.control.value && s.control.value[ManifestName] == ManifestOf(manifest)
              && Clean(s.control.value, k) && k < MAX_ATTEMPTS
  {
    hide Scan;
    RunGood(events);
    var s, k := Run(events), Count(events);
    if s.process == Idle && s.control.Some? {
      LockKeeps(s.control.value, k);
      ScanRecorded(s.control.value, k);
      ScanRecorded(s.control.value[Lock := Empty], k);
    }
  }

  /** No process, and the last attempt crashed, failed, was torn, or stopped for another reason. */
  ghost predicate Dead(s: State, k: nat) {
    s.process == Idle && s.control.Some? && Recorded(s.control.value, k) && !Clean(s.control.value, k)
  }

  lemma StepDead(s: State, e: Event, k: nat)
    requires Dead(s, k)
    ensures Dead(Step(s, e), k)
  {
    if e.Resume? {
      hide Scan;
      LockKeeps(s.control.value, k);
      ScanRecorded(s.control.value, k);
      ScanRecorded(s.control.value[Lock := Empty], k);
    }
  }

  function Continue(s: State, events: seq<Event>): State {
    if events == [] then s else Step(Continue(s, events[..|events| - 1]), events[|events| - 1])
  }

  /** A log whose last attempt is not clean admits no attempt ever again, by creation or resumption. */
  lemma {:induction false} DeadForever(s: State, k: nat, events: seq<Event>)
    requires Dead(s, k)
    ensures Dead(Continue(s, events), k) && !Continue(s, events).process.Built?
  {
    if events != [] {
      DeadForever(s, k, events[..|events| - 1]);
      StepDead(Continue(s, events[..|events| - 1]), events[|events| - 1], k);
    }
  }

  /** The event ends an attempt that has started, otherwise than by a whole, readable operator stop. */
  predicate EndsBadly(s: State, e: Event) {
    || (s.process.Running?
        && (e.Quit?
            || (e.Stop? && (e.reason != OperatorStop || !e.fits || e.fate == LeavesNothing || e.fate == LeavesTorn))))
    || (s.process.Built? && e.Start? && (e.fate == LeavesTorn || e.fate == LeavesWhole))
  }

  /** From a state that is not dead, exactly the events that end an attempt badly kill the log. */
  lemma StepKills(s: State, e: Event, k: nat)
    requires Good(s, k) && !Dead(s, k)
    ensures Dead(Step(s, e), Attempts(s, e, k)) <==> EndsBadly(s, e)
  {
    hide Scan;
    StepGood(s, e, k);
    match e
    case Start(fate) =>
      if s.process.Built? {
        StartGood(s, fate, k);
        assert !Numbered(Stopped(k + 1), 1, k);
        assert Stopped(k + 1) !in s.control.value;
      }
    case Stop(reason, fits, fate) =>
      if s.process.Running? { assert CleanAttempt(Step(s, e).control.value, k) <==> !EndsBadly(s, e); }
    case Quit =>
    case Create(_, _, _, _) =>
    case Resume(manifest) =>
      if s.process == Idle && s.control.Some? {
        LockKeeps(s.control.value, k);
        ScanRecorded(s.control.value, k);
        ScanRecorded(s.control.value[Lock := Empty], k);
      }
  }

  ghost predicate EndedBadly(events: seq<Event>) {
    exists i :: 0 <= i < |events| && EndsBadly(Run(events[..i]), events[i])
  }

  lemma EndedBadlyOneMore(events: seq<Event>)
    requires events != []
    ensures var init, e := events[..|events| - 1], events[|events| - 1];
            EndedBadly(events) <==> EndedBadly(init) || EndsBadly(Run(init), e)
  {
    hide EndsBadly, Run;
    var init, e := events[..|events| - 1], events[|events| - 1];
    if EndedBadly(init) {
      var i :| 0 <= i < |init| && EndsBadly(Run(init[..i]), init[i]);
      assert events[..i] == init[..i] && events[i] == init[i];
    }
    if EndedBadly(events) {
      var i :| 0 <= i < |events| && EndsBadly(Run(events[..i]), events[i]);
      if i < |init| { assert events[..i] == init[..i] && events[i] == init[i]; }
    }
  }

  /** In every history the log is dead if and only if some attempt has ended badly. */
  lemma {:induction false} DeadExactly(events: seq<Event>)
    ensures Dead(Run(events), Count(events)) <==> EndedBadly(events)
  {
    if events == [] {
      assert !EndedBadly([]);
    } else {
      hide Step, EndsBadly, EndedBadly, Recorded, Clean;
      var init, e := events[..|events| - 1], events[|events| - 1];
      DeadExactly(init);
      RunGood(init);
      EndedBadlyOneMore(events);
      if EndedBadly(init) {
        StepDead(Run(init), e, Count(init));
      } else {
        StepKills(Run(init), e, Count(init));
      }
    }
  }

  /** Once an attempt has crashed, failed, been torn or stopped otherwise than by a readable operator stop, no later
      attempt is ever constructed or counted. */
  lemma {:induction false} NeverAgain(events: seq<Event>, i: nat, j: nat)
    requires i < j <= |events| && EndsBadly(Run(events[..i]), events[i])
    ensures Run(events[..j]).process == Idle && Count(events[..j]) == Count(events[..i + 1])
    decreases j
  {
    hide Step, EndsBadly, Recorded, Clean;
    var now := events[..j];
    assert now[..i] == events[..i] && now[i] == events[i];
    DeadExactly(now);
    if j > i + 1 {
      NeverAgain(events, i, j - 1);
      assert now[..j - 1] == events[..j - 1];
    }
  }

  // ---- The limits ----

  /** The history of `n` clean attempts, ready for one more. */
  function CleanHistory(n: nat, manifest: int): seq<Event> {
    if n == 0 then [Create(manifest, false, true, Survives)]
    else CleanHistory(n - 1, manifest) + [Start(Survives), Stop(OperatorStop, true, Survives), Resume(manifest)]
  }

  lemma RunOne(events: seq<Event>, e: Event)
    ensures Run(events + [e]) == Step(Run(events), e) && Count(events + [e]) == Attempts(Run(events), e, Count(events))
  {
    assert (events + [e])[..|events|] == events;
  }

  /** `n` clean attempts recorded, and one more constructed if there is room. */
  ghost predicate Ready(s: State, n: nat, manifest: int) {
    && s.control.Some? && Clean(s.control.value, n)
    && Lock in s.control.value && ManifestName in s.control.value
    && s.control.value[ManifestName] == ManifestOf(manifest)
    && s.process == (if n < MAX_ATTEMPTS then Built(n + 1) else Idle)
    && |s.control.value| == 2 * n + 2
  }

  /** The limits admit exactly 128 attempts: after fewer clean attempts another can be constructed, after 128 the
      directory holds 258 files and none can. */
  lemma {:induction false} LimitsExact(n: nat, manifest: int)
    requires n <= MAX_ATTEMPTS
    ensures Ready(Run(CleanHistory(n, manifest)), n, manifest) && Count(CleanHistory(n, manifest)) == n
  {
    hide Scan, Ready, Step;
    if n == 0 {
      var e := Create(manifest, false, true, Survives);
      assert [] + [e] == [e];
      RunOne([], e);
      FirstReady(manifest);
    } else {
      var before := CleanHistory(n - 1, manifest);
      LimitsExact(n - 1, manifest);
      var a, b, c := Start(Survives), Stop(OperatorStop, true, Survives), Resume(manifest);
      RunOne(before, a);
      RunOne(before + [a], b);
      RunOne(before + [a] + [b], c);
      assert before + [a] + [b] + [c] == CleanHistory(n, manifest);
      OneMoreReady(Run(before), n, manifest);
      ReadyToStart(Run(before), n, manifest);
    }
  }

  lemma ReadyToStart(s: State, n: nat, manifest: int)
    requires 1 <= n <= MAX_ATTEMPTS && Ready(s, n - 1, manifest)
    ensures s.process.Built? && s.control.Some?
  {
  }

  lemma FirstReady(manifest: int)
    ensures Ready(Step(Initial, Create(manifest, false, true, Survives)), 0, manifest)
  {
    hide Scan;
    var dir := map[Lock := Empty, ManifestName := ManifestOf(manifest)];
    assert Recorded(dir, 0);
    ScanRecorded(dir, 0);
    assert dir.Keys == {Lock, ManifestName} && |dir| == |dir.Keys|;
  }

  lemma CleanDirectoryGrows(dir: Dir, n: nat)
    requires 1 <= n <= MAX_ATTEMPTS && Clean(dir, n - 1) && ManifestName in dir && dir[ManifestName].ManifestOf?
    ensures Started(n) !in dir && Stopped(n) !in dir
    ensures var dir' := dir[Started(n) := StartOf(n)][Stopped(n) := StopOf(n, OperatorStop)];
            Clean(dir', n) && |dir'| == |dir| + 2
  {
    assert !Numbered(Stopped(n), 1, n - 1) && !Numbered(Started(n), 1, n - 1);
    var dir' := dir[Started(n) := StartOf(n)][Stopped(n) := StopOf(n, OperatorStop)];
    forall i: nat | 1 <= i < n ensures CleanAttempt(dir', i) { assert CleanAttempt(dir, i); }
    forall name | name in dir' && name != Lock && name != ManifestName ensures Numbered(name, 1, n) {
      assert name in dir ==> Numbered(name, 1, n - 1);
    }
    assert dir'.Keys == dir.Keys + {Started(n), Stopped(n)};
  }

  lemma OneMoreReady(s: State, n: nat, manifest: int)
    requires 1 <= n <= MAX_ATTEMPTS && Ready(s, n - 1, manifest)
    ensures var stopped := Step(Step(s, Start(Survives)), Stop(OperatorStop, true, Survives));
            Ready(Step(stopped, Resume(manifest)), n, manifest)
  {
    hide Scan, Clean;
    var dir := s.control.value;
    CleanDirectoryGrows(dir, n);
    var dir' := dir[Started(n) := StartOf(n)][Stopped(n) := StopOf(n, OperatorStop)];
    assert Step(Step(s, Start(Survives)), Stop(OperatorStop, true, Survives)) == State(Some(dir'), Idle);
    CleanIsRecorded(dir', n);
    ScanRecorded(dir', n);
  }

  lemma CleanIsRecorded(dir: Dir, n: nat)
    requires Clean(dir, n)
    ensures Recorded(dir, n)
  {
  }

  /** The first attempt of a log, stopped by the operator with a stop file too large to be read back, is its last. */
  lemma OversizedStopIsFatal(manifest: int)
    ensures var stop := Stop(OperatorStop, false, Survives);
            var events := [Create(manifest, false, true, Survives), Start(Survives), stop];
            EndedBadly(events) && Dead(Run(events), 1)
  {
    hide Scan, Recorded, Clean, Ready;
    var create, start := Create(manifest, false, true, Survives), Start(Survives);
    var stop := Stop(OperatorStop, false, Survives);
    LimitsExact(0, manifest);
    ReadyToStart(Run([create]), 1, manifest);
    RunGood([create]);
    RunOne([create], start);
    RunOne([create, start], stop);
    var events := [create, start, stop];
    assert [create] + [start] == [create, start] && [create, start] + [stop] == events;
    assert events[..2] == [create, start] && events[2] == stop;
    StartGood(Run([create]), Survives, 0);
    assert EndsBadly(Run(events[..2]), events[2]);
    DeadExactly(events);
  }
}
