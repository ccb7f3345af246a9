/** The one-shot permit to send an exit after a recycle: lock-protected blocks in any interleaving. */
module PermitModel {
  import opened Results

  type RequestId = int
  type Connection = int

  datatype Outcome = Attempted | Succeeded | Failed | Blocked | Expired

  datatype Refusal = NotArmed | AlreadyUsed | RequestMismatch | ConnectionMismatch | WindowExpired

  /** What an armed permit is good for. */
  datatype Binding = Binding(armed: bool, used: bool, window: Option<nat>, armedAt: Option<int>,
                             expected: Option<Connection>, request: Option<RequestId>)

  /** What the health page shows about the recycle behind the permit. */
  datatype Report = Report(result: Option<Outcome>, renewed: bool, connection: Option<Connection>,
      authorized: Option<int>)

  datatype Totals = Totals(armed: nat, attempt: nat, success: nat, failed: nat, blocked: nat)

  datatype Permit = Permit(bound: Binding, report: Report, totals: Totals)

  /** Blocks that hold the lock. `at` is a monotonic clock in milliseconds. */
  datatype Block =
    | Arm(request: RequestId, connection: Connection, window: nat, authorized: int, at: int)
    | Begin(request: RequestId, current: Option<Connection>, at: int)
    | Finish(success: bool)
    | Reset

  const Unbound := Binding(false, false, None, None, None, None)
  const Start := Permit(Unbound, Report(None, false, None, None), Totals(0, 0, 0, 0, 0))

  function Elapsed(since: int, now: int): nat { if now >= since then now - since else 0 }

  function Armed(p: Permit, request: RequestId, connection: Connection, window: nat, authorized: int, at: int): Permit {
    Permit(Binding(true, false, Some(window), Some(at), Some(connection), Some(request)),
           Report(None, true, Some(connection), Some(authorized)),
           p.totals.(armed := p.totals.armed + 1))
  }

  /** Why a send may not begin, if it may not. */
  function Check(p: Binding, request: RequestId, connection: Option<Connection>, at: int): Option<Refusal> {
    if !p.armed then Some(NotArmed)
    else if p.used then Some(AlreadyUsed)
    else if p.request != Some(request) then Some(RequestMismatch)
    else if p.expected != connection then Some(ConnectionMismatch)
    else if p.armedAt.Some? && p.window.Some? && Elapsed(p.armedAt.value, at) > p.window.value then Some(WindowExpired)
    else None
  }

  function Begun(p: Permit, refusal: Option<Refusal>): Permit {
    var off := p.bound.(armed := false, request := None, expected := None, armedAt := None);
    if refusal.Some? then
      Permit(off, p.report.(result := Some(if refusal.value == WindowExpired then Expired else Blocked)),
             p.totals.(blocked := p.totals.blocked + 1))
    else
      Permit(off.(used := true), p.report.(result := Some(Attempted)), p.totals.(attempt := p.totals.attempt + 1))
  }

  function Finished(p: Permit, success: bool): Permit {
    p.(report := p.report.(result := Some(if success then Succeeded else Failed)),
       totals := if success then p.totals.(success := p.totals.success + 1)
           else p.totals.(failed := p.totals.failed + 1))
  }

  function Cleared(p: Permit): Permit { Permit(Unbound, Report(None, false, None, None), p.totals) }

  function Step(p: Permit, b: Block): Permit {
    match b
    case Arm(request, connection, window, authorized, at) => Armed(p, request, connection, window, authorized, at)
    case Begin(request, connection, at) => Begun(p, Check(p.bound, request, connection, at))
    case Finish(success) => Finished(p, success)
    case Reset => Cleared(p)
  }

  function Run(blocks: seq<Block>): Permit {
    if blocks == [] then Start else Step(Run(blocks[..|blocks| - 1]), blocks[|blocks| - 1])
  }

  // ---- What the permit means ----

  /** The last block other than a finish. */
  function Latest(blocks: seq<Block>): (r: Option<nat>)
    ensures r.Some? ==> r.value < |blocks| && !blocks[r.value].Finish?
  {
    if blocks == [] then None
    else if !blocks[|blocks| - 1].Finish? then Some(|blocks| - 1)
    else Latest(blocks[..|blocks| - 1])
  }

  lemma {:induction false} LatestExact(blocks: seq<Block>)
    ensures var k := match Latest(blocks) { case None => 0 case Some(j) => j + 1 };
            forall i :: k <= i < |blocks| ==> blocks[i].Finish?
  {
    if blocks != [] {
      var init := blocks[..|blocks| - 1];
      LatestExact(init);
      assert forall i {:trigger blocks[i]} :: 0 <= i < |init| ==> blocks[i] == init[i];
    }
  }

  /** The binding an arming leaves behind. */
  predicate BoundTo(p: Permit, b: Block)
    requires b.Arm?
  {
    && p.bound == Binding(true, false, Some(b.window), Some(b.at), Some(b.connection), Some(b.request))
    && p.report.renewed && p.report.connection == Some(b.connection) && p.report.authorized == Some(b.authorized)
  }

  ghost predicate LatestIsArm(blocks: seq<Block>) {
    Latest(blocks).Some? && blocks[Latest(blocks).value].Arm?
  }

  /** The permit is armed exactly while the last block other than a finish is an arming, and then it is unused and
      carries everything that arming bound it to. */
  lemma {:induction false} ArmedExactly(blocks: seq<Block>)
    ensures Run(blocks).bound.armed <==> LatestIsArm(blocks)
    ensures LatestIsArm(blocks) ==> BoundTo(Run(blocks), blocks[Latest(blocks).value])
  {
    if blocks != [] {
      ArmedExactly(blocks[..|blocks| - 1]);
    }
  }

  /** Block `k` begins a send. */
  predicate Admits(blocks: seq<Block>, k: nat)
    requires k < |blocks|
  {
    blocks[k].Begin? && Check(Run(blocks[..k]).bound, blocks[k].request, blocks[k].current, blocks[k].at).None?
  }

  /** `j` arms exactly the send that `k` begins, in time, with nothing but finishes in between. */
  ghost predicate Licenses(blocks: seq<Block>, j: nat, k: nat)
    requires j < |blocks| && k < |blocks|
  {
    && j < k && blocks[j].Arm? && blocks[k].Begin?
    && blocks[j].request == blocks[k].request && Some(blocks[j].connection) == blocks[k].current
    && Elapsed(blocks[j].at, blocks[k].at) <= blocks[j].window
    && forall i :: j < i < k ==> blocks[i].Finish?
  }

  /** A send begins if and only if some arming licenses it: the latest one, for the same request and connection,
      within its window, with no reset, other begin or other arming since. */
  lemma AdmittedExactly(blocks: seq<Block>, k: nat)
    requires k < |blocks|
    ensures Admits(blocks, k) <==> exists j :: 0 <= j < |blocks| && Licenses(blocks, j, k)
  {
    var past := blocks[..k];
    ArmedExactly(past);
    LatestExact(past);
    assert forall i {:trigger blocks[i]} :: 0 <= i < k ==> blocks[i] == past[i];
    if Admits(blocks, k) {
      assert Licenses(blocks, Latest(past).value, k);
    }
    if j :| 0 <= j < |blocks| && Licenses(blocks, j, k) {
      LatestIs(past, j);
      assert Latest(past) == Some(j);
    }
  }

  lemma {:induction false} LatestIs(blocks: seq<Block>, j: nat)
    requires j < |blocks| && !blocks[j].Finish? && forall i :: j < i < |blocks| ==> blocks[i].Finish?
    ensures Latest(blocks) == Some(j)
  {
    if j < |blocks| - 1 { LatestIs(blocks[..|blocks| - 1], j); }
  }

  /** An arming licenses at most one send. */
  lemma OneShot(blocks: seq<Block>, j: nat, k1: nat, k2: nat)
    requires j < |blocks| && k1 < |blocks| && k2 < |blocks|
    requires Licenses(blocks, j, k1) && Licenses(blocks, j, k2)
    ensures k1 == k2
  {
    assert blocks[k1].Begin? && blocks[k2].Begin?;
    assert !(k1 < k2) && !(k2 < k1);
  }

  /** A refusal for a permit already used never happens: using it disarms it. */
  lemma NeverAlreadyUsed(blocks: seq<Block>, request: RequestId, connection: Option<Connection>, at: int)
    ensures Check(Run(blocks).bound, request, connection, at) != Some(AlreadyUsed)
  {
    ArmedExactly(blocks);
  }

  /** Attempts never exceed armings, even counting the permit that is still armed; every begin is an attempt or a
      block, and disarms. */
  lemma {:induction false} AttemptsWithinArmings(blocks: seq<Block>)
    ensures var p := Run(blocks);
            && p.totals.attempt + (if p.bound.armed then 1 else 0) <= p.totals.armed
            && p.totals.armed == CountArms(blocks)
            && p.totals.attempt + p.totals.blocked == CountBegins(blocks)
            && p.totals.attempt == CountAdmitted(blocks, |blocks|)
  {
    if blocks != [] {
      var init := blocks[..|blocks| - 1];
      AttemptsWithinArmings(init);
      AdmittedPrefix(blocks, |init|);
    }
  }

  function CountArms(blocks: seq<Block>): nat {
    if blocks == [] then 0 else CountArms(blocks[..|blocks| - 1]) + if blocks[|blocks| - 1].Arm? then 1 else 0
  }

  function CountBegins(blocks: seq<Block>): nat {
    if blocks == [] then 0 else CountBegins(blocks[..|blocks| - 1]) + if blocks[|blocks| - 1].Begin? then 1 else 0
  }

  function CountAdmitted(blocks: seq<Block>, n: nat): nat
    requires n <= |blocks|
  {
    if n == 0 then 0 else CountAdmitted(blocks, n - 1) + if Admits(blocks, n - 1) then 1 else 0
  }

  lemma {:induction false} AdmittedPrefix(blocks: seq<Block>, n: nat)
    requires n < |blocks|
    ensures CountAdmitted(blocks, n) == CountAdmitted(blocks[..|blocks| - 1], n)
  {
    if n > 0 {
      AdmittedPrefix(blocks, n - 1);
      assert blocks[..|blocks| - 1][..n - 1] == blocks[..n - 1];
    }
  }

  /** Block `k` begins a send, and the permit has not been armed or reset since. */
  ghost predicate StandsUsed(blocks: seq<Block>, k: nat)
    requires k < |blocks|
  {
    Admits(blocks, k) && forall i :: k < i < |blocks| ==> !blocks[i].Arm? && !blocks[i].Reset?
  }

  /** The permit counts as used exactly from a send that begins until the next arming or reset: a refusal in between
      does not clear it. */
  lemma {:induction false} UsedExactly(blocks: seq<Block>)
    ensures Run(blocks).bound.used <==> exists k :: 0 <= k < |blocks| && StandsUsed(blocks, k)
  {
    if blocks != [] {
      var init, last := blocks[..|blocks| - 1], blocks[|blocks| - 1];
      UsedExactly(init);
      forall k | 0 <= k < |init| ensures StandsUsed(blocks, k) <==> StandsUsed(init, k) && !last.Arm? && !last.Reset? {
        assert blocks[..k] == init[..k];
        assert forall i {:trigger init[i]} :: 0 <= i < |init| ==> blocks[i] == init[i];
      }
      assert StandsUsed(blocks, |init|) <==> Admits(blocks, |init|);
      if Run(blocks).bound.used {
        if k :| 0 <= k < |init| && StandsUsed(init, k) {
          if !Admits(blocks, |init|) { assert StandsUsed(blocks, k); }
        }
      }
    }
  }

  // ---- Reasons, results and totals ----

  /** Why a send is refused, in terms of the blocks before it: nothing arms it; the arming names another request; or
      another connection; or the window is over. */
  lemma RefusedExactly(blocks: seq<Block>, request: RequestId, connection: Option<Connection>, at: int)
    ensures var reason := Check(Run(blocks).bound, request, connection, at);
            if !LatestIsArm(blocks) then reason == Some(NotArmed)
            else
              var arm := blocks[Latest(blocks).value];
              && (reason == Some(RequestMismatch) <==> arm.request != request)
              && (reason == Some(ConnectionMismatch) <==> arm.request == request && connection != Some(arm.connection))
              && (reason == Some(WindowExpired) <==>
                    arm.request == request && connection == Some(arm.connection) && at - arm.at > arm.window)
              && (reason == None <==>
                    arm.request == request && connection == Some(arm.connection) && at - arm.at <= arm.window)
  {
    ArmedExactly(blocks);
  }

  /** The result on display is that of the last block: nothing after an arming or a reset, the attempt or the refusal
      after a begin, the ending after a finish. */
  lemma ResultExact(blocks: seq<Block>)
    requires blocks != []
    ensures var init, last := blocks[..|blocks| - 1], blocks[|blocks| - 1];
            var result := Run(blocks).report.result;
            match last
            case Arm(_, _, _, _, _) => result == None
            case Reset => result == None
            case Finish(success) => result == Some(if success then Succeeded else Failed)
            case Begin(request, connection, at) =>
              match Check(Run(init).bound, request, connection, at) {
                case None => result == Some(Attempted)
                case Some(WindowExpired) => result == Some(Expired)
                case Some(_) => result == Some(Blocked)
              }
  {
  }

  function CountFinishes(blocks: seq<Block>, success: bool): nat {
    if blocks == [] then 0 else
      CountFinishes(blocks[..|blocks| - 1], success) + if blocks[|blocks| - 1] == Finish(success) then 1 else 0
  }

  /** The success and failure totals count the finishes, whatever happens around them. */
  lemma {:induction false} FinishesCounted(blocks: seq<Block>)
    ensures Run(blocks).totals.success == CountFinishes(blocks, true)
    ensures Run(blocks).totals.failed == CountFinishes(blocks, false)
  {
    if blocks != [] { FinishesCounted(blocks[..|blocks| - 1]); }
  }

  /** The last arming since the last reset. */
  function Evidence(blocks: seq<Block>): Option<Block> {
    if blocks == [] || blocks[|blocks| - 1].Reset? then None
    else if blocks[|blocks| - 1].Arm? then Some(blocks[|blocks| - 1])
    else Evidence(blocks[..|blocks| - 1])
  }

  /** The connection and authorization on display are those of the last arming since the last reset. */
  lemma {:induction false} ReportExact(blocks: seq<Block>)
    ensures var report := Run(blocks).report;
            match Evidence(blocks)
            case None => !report.renewed && report.connection == None && report.authorized == None
            case Some(arm) =>
              arm.Arm? && report.renewed
              && report.connection == Some(arm.connection) && report.authorized == Some(arm.authorized)
  {
    if blocks != [] { ReportExact(blocks[..|blocks| - 1]); }
  }
}
