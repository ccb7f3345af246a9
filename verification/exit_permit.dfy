/** The permit fields of the shared health state and the four blocks that change them under its lock. */
module ExitPermit {
  import opened Results
  import M = PermitModel

  class Health {
    var bound: M.Binding
    var report: M.Report
    var totals: M.Totals

    function Now(): M.Permit
      reads this
    {
      M.Permit(bound, report, totals)
    }

    constructor ()
      ensures Now() == M.Run([])
    {
      bound := M.Unbound;
      report := M.Report(None, false, None, None);
      totals := M.Totals(0, 0, 0, 0, 0);
    }

    /** Taken when the recycled session was seen ready; the snapshot lends its authorization time, if it has one. */
    method Arm(request: M.RequestId, connection: M.Connection, window: nat, authorized: Option<int>, utcNow: int,
               at: int)
      modifies this
      ensures var authorizedAt := if authorized.Some? then authorized.value else utcNow;
              Now() == M.Step(old(Now()), M.Arm(request, connection, window, authorizedAt, at))
    {
      var authorizedAt := if authorized.Some? then authorized.value else utcNow;
      bound := bound.(armed := true, used := false, window := Some(window));
      report := M.Report(None, true, Some(connection), Some(authorizedAt));
      totals := totals.(armed := totals.armed + 1);
      bound := bound.(armedAt := Some(at), expected := Some(connection), request := Some(request));
    }

    method BeginSend(request: M.RequestId, connection: Option<M.Connection>, at: int) returns (r: Result<(), M.Refusal>)
      modifies this
      ensures Now() == M.Step(old(Now()), M.Begin(request, connection, at))
      ensures match M.Check(old(bound), request, connection, at)
              case None => r == Ok(())
              case Some(refusal) => r == Err(refusal)
    {
      var windowExpired := false;
      if bound.armedAt.Some? && bound.window.Some? {
        windowExpired := M.Elapsed(bound.armedAt.value, at) > bound.window.value;
      }
      var blocked: Option<M.Refusal> := None;
      if !bound.armed {
        blocked := Some(M.NotArmed);
      } else if bound.used {
        blocked := Some(M.AlreadyUsed);
      } else if bound.request != Some(request) {
        blocked := Some(M.RequestMismatch);
      } else if bound.expected != connection {
        blocked := Some(M.ConnectionMismatch);
      } else if windowExpired {
        blocked := Some(M.WindowExpired);
      }
      if blocked.Some? {
        bound := bound.(armed := false);
        report := report.(result := Some(if blocked.value == M.WindowExpired then M.Expired else M.Blocked));
        totals := totals.(blocked := totals.blocked + 1);
        bound := bound.(request := None, expected := None, armedAt := None);
        return Err(blocked.value);
      }
      bound := bound.(used := true, armed := false);
      report := report.(result := Some(M.Attempted));
      totals := totals.(attempt := totals.attempt + 1);
      bound := bound.(request := None, expected := None, armedAt := None);
      return Ok(());
    }

    method FinishSend(success: bool)
      modifies this
      ensures Now() == M.Step(old(Now()), M.Finish(success))
    {
      if success {
        totals := totals.(success := totals.success + 1);
        report := report.(result := Some(M.Succeeded));
      } else {
        totals := totals.(failed := totals.failed + 1);
        report := report.(result := Some(M.Failed));
      }
    }

    /** Part of every loss of authorization: a new session, a refused one, a failure or a recycle. */
    method ResetState()
      modifies this
      ensures Now() == M.Step(old(Now()), M.Reset)
    {
      bound := M.Unbound;
      report := M.Report(None, false, None, None);
    }
  }
}
