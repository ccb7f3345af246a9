/** When the control path counts as stale, and what recycling it can and cannot cure. */
module StalePath {
  import opened Results

  /** Times in milliseconds of a monotonic clock; the limit in seconds, zero to disable the test. */
  datatype Health = Health(limitSec: nat, lastTx: Option<int>, lastSuccess: Option<int>)

  datatype Reason = SuccessTooOld | SuccessMissingAndTxTooOld | TxTooOld

  datatype Status = Status(reason: Option<Reason>, staleForMs: Option<nat>)

  function Age(at: Option<int>, now: int): Option<nat> {
    if at.None? then None else Some(if now >= at.value then now - at.value else 0)
  }

  function Evaluate(h: Health, now: int): Status {
    var limit := h.limitSec * 1000;
    var success, tx := Age(h.lastSuccess, now), Age(h.lastTx, now);
    if limit == 0 then Status(None, None)
    else if success.Some? && success.value > limit then Status(Some(SuccessTooOld), Some(success.value - limit))
    else if success.None? && tx.Some? && tx.value > limit then
      Status(Some(SuccessMissingAndTxTooOld), Some(tx.value - limit))
    else if success.Some? && tx.Some? && tx.value > limit then Status(Some(TxTooOld), Some(tx.value - limit))
    else Status(None, None)
  }

  predicate Stale(h: Health, now: int) { Evaluate(h, now).reason.Some? }

  predicate TooOld(h: Health, at: Option<int>, now: int) { at.Some? && now - at.value > h.limitSec * 1000 }

  /** What can happen to the two times: a send, a successful answer, or a new session, which forgets the last send
      but not the last success. */
  datatype Touch = Sent(at: int) | Succeeded(at: int) | NewSession

  function Apply(h: Health, t: Touch): Health {
    match t
    case Sent(at) => h.(lastTx := Some(at))
    case Succeeded(at) => h.(lastSuccess := Some(at))
    case NewSession => h.(lastTx := None)
  }

  function ApplyAll(h: Health, touches: seq<Touch>): Health {
    if touches == [] then h else Apply(ApplyAll(h, touches[..|touches| - 1]), touches[|touches| - 1])
  }

  /** The path is stale exactly when the test is on and the last send or the last success is too old, and the time
      reported is how far that one is over the limit. */
  lemma StaleExactly(h: Health, now: int)
    ensures Stale(h, now) <==> h.limitSec > 0 && (TooOld(h, h.lastSuccess, now) || TooOld(h, h.lastTx, now))
    ensures Stale(h, now) <==> Evaluate(h, now).staleForMs.Some?
    ensures Stale(h, now) ==>
      Evaluate(h, now).staleForMs.value > 0
      && (var at := if TooOld(h, h.lastSuccess, now) then h.lastSuccess else h.lastTx;
          at.Some? && Evaluate(h, now).staleForMs.value == now - at.value - h.limitSec * 1000)
  {
  }

  /** Which reason is given: an old success before an old send, and the send alone when nothing has succeeded. */
  lemma ReasonExact(h: Health, now: int)
    requires h.limitSec > 0
    ensures var reason := Evaluate(h, now).reason;
            && (reason == Some(SuccessTooOld) <==> TooOld(h, h.lastSuccess, now))
            && (reason == Some(SuccessMissingAndTxTooOld) <==> h.lastSuccess.None? && TooOld(h, h.lastTx, now))
            && (reason == Some(TxTooOld) <==>
                  h.lastSuccess.Some? && !TooOld(h, h.lastSuccess, now) && TooOld(h, h.lastTx, now))
  {
  }

  /** A new session cures staleness if and only if the last success, if any, is recent enough. */
  lemma RecycleCuresExactly(h: Health, now: int)
    requires h.limitSec > 0
    ensures !Stale(Apply(h, NewSession), now) <==> !TooOld(h, h.lastSuccess, now)
  {
  }

  /** A last success fifteen minutes and a millisecond ago keeps a path stale that has just been recycled. */
  lemma RecycleDoesNotCure()
    ensures var h := Health(900, Some(900_000), Some(0));
            Stale(h, 900_001) && Stale(Apply(h, NewSession), 900_001)
  {
  }

  /** Once the last success is too old, no number of new sessions and sends makes the path fresh again: only a
      successful control answer does. */
  lemma {:induction false} OnlySuccessCures(h: Health, touches: seq<Touch>, now: int, later: int)
    requires h.limitSec > 0 && TooOld(h, h.lastSuccess, now) && now <= later
    requires forall i :: 0 <= i < |touches| ==> !touches[i].Succeeded?
    ensures var h' := ApplyAll(h, touches);
            h'.limitSec == h.limitSec && h'.lastSuccess == h.lastSuccess && Stale(h', later)
  {
    if touches != [] { OnlySuccessCures(h, touches[..|touches| - 1], now, later); }
  }
}
