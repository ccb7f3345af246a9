/** One command session's event handlers over the mutable pending map, counters and reply channels. */
module CwsSession {
  import opened Results
  import M = CwsModel

  class Session {
    var up: bool
    var pending: map<M.Guid, M.Request>
    /** The callers' ends of the reply channels, in the order of the sends. */
    var channels: seq<M.Channel>
    var totals: M.Totals
    var failedTotal: nat

    function Now(): M.Wire
      reads this
    {
      M.Wire(up, pending, channels, totals, failedTotal)
    }

    ghost predicate Valid()
      reads this
    {
      M.Inv(Now()) && M.Books(Now()) && M.Numbered(Now())
    }

    constructor ()
      ensures Valid() && Now() == M.Start
    {
      up, pending, channels, failedTotal := false, map[], [], 0;
      totals := M.Start.totals;
      new;
      forall op ensures M.Balanced(M.Start, op) { M.CountNone(op); }
    }

    method Connect()
      requires Valid() && !up
      modifies this
      ensures Valid() && Now() == M.Step(old(Now()), M.Connect)
    {
      M.StepKeeps(Now(), M.Connect);
      M.StepKeepsBooks(Now(), M.Connect);
      M.ReconnectKeeps(Now());
      up := true;
      pending := map[];
    }

    /** The counting loop over the requests in flight, in any order. */
    method CountFailures()
      modifies this`totals
      ensures totals == M.FailedTotals(old(totals), pending)
    {
      ghost var before := totals;
      var rest := pending.Keys;
      assert pending - rest == map[];
      forall op { M.CountNone(op); }
      while exists g :: g in rest
        invariant rest <= pending.Keys
        invariant totals == M.FailedTotals(before, pending - rest)
        decreases rest
      {
        hide M.InFlight;
        var g :| g in rest;
        forall op { M.CountIn(pending - rest, g, pending[g], op); }
        assert pending - (rest - {g}) == (pending - rest)[g := pending[g]];
        totals := M.Finished(totals, pending[g].opcode, false);
        rest := rest - {g};
      }
      assert pending - rest == pending;
    }

    ghost predicate Addressed()
      reads this
    {
      Distinct(pending) && forall g :: g in pending ==> pending[g].n < |channels|
    }

    /** The draining loop: each request in flight hears of the failure, in any order. */
    method DrainPending()
      requires Addressed()
      modifies this`pending, this`channels
      ensures pending == map[] && channels == M.TellAll(old(channels), old(pending))
    {
      hide M.TellAll;
      ghost var all, before := pending, channels;
      assert all - pending.Keys == map[];
      TellNone(before);
      while exists g :: g in pending
        invariant pending.Keys <= all.Keys && forall g :: g in pending ==> pending[g] == all[g]
        invariant |channels| == |before| && channels == M.TellAll(before, all - pending.Keys)
        decreases pending.Keys
      {
        var g :| g in pending;
        var r := pending[g];
        TellOne(before, all, all - pending.Keys, g);
        assert all - (pending.Keys - {g}) == (all - pending.Keys)[g := all[g]];
        channels := channels[r.n := M.Told(channels[r.n], M.TransportFailure(r.guid, r.opcode))];
        pending := pending - {g};
      }
      assert pending.Keys == {} && all - pending.Keys == all;
    }

    method FailPendingWithTransport()
      requires Addressed()
      modifies this
      ensures Now() == M.FailAll(old(Now())).(up := old(up))
    {
      hide M.FailedTotals, M.TellAll;
      if |pending| > 0 {
        failedTotal := failedTotal + |pending|;
        CountFailures();
      } else {
        assert pending.Keys == {};
        NothingInFlight(totals, pending);
      }
      DrainPending();
    }

    // ---- Event handlers ----

    method OnSend(guid: M.Guid, opcode: M.Opcode, written: bool)
      requires Valid() && up
      modifies this
      ensures Valid() && Now() == M.Step(old(Now()), M.Send(guid, opcode, written))
    {
      ghost var s, e := Now(), M.Send(guid, opcode, written);
      M.StepKeeps(s, e);
      M.StepKeepsBooks(s, e);
      M.DisplaceKeeps(s, guid);
      M.AcceptKeeps(M.Displace(s, guid), guid, opcode);
      hide M.Inv, M.Books, M.FailAll;
      if guid in pending {
        var older := pending[guid];
        channels := channels[older.n := channels[older.n].(closed := true)];
        totals := M.Abandoned(totals, older.opcode);
        pending := pending - {guid};
      }
      pending := pending[guid := M.Request(|channels|, guid, opcode)];
      channels := channels + [M.Channel(guid, opcode, [], false)];
      totals := M.Sent(totals, opcode);
      assert Now() == M.Accept(M.Displace(s, guid), guid, opcode);
      if !written {
        InvAddresses(Now());
        FailPendingWithTransport();
        up := false;
      }
    }

    method OnAnswer(guid: M.Guid, success: bool)
      requires Valid() && up
      modifies this
      ensures Valid() && Now() == M.Step(old(Now()), M.Answer(guid, success))
    {
      ghost var s, e := Now(), M.Answer(guid, success);
      M.StepKeeps(s, e);
      M.StepKeepsBooks(s, e);
      hide M.Inv, M.Books;
      if guid in pending {
        var r := pending[guid];
        pending := pending - {guid};
        totals := M.Finished(totals, r.opcode, success);
        channels := channels[r.n := M.Told(channels[r.n], M.Response(success))];
      }
    }

    /** A close frame, a receive error or the end of the stream. */
    method OnLost()
      requires Valid() && up
      modifies this
      ensures Valid() && Now() == M.Step(old(Now()), M.Lost)
    {
      M.StepKeeps(Now(), M.Lost);
      M.StepKeepsBooks(Now(), M.Lost);
      InvAddresses(Now());
      hide M.Inv, M.Books, M.FailAll;
      FailPendingWithTransport();
      up := false;
    }

    /** A recycle request or a closed command channel: the session returns and its pending map goes with it. */
    method OnLeave(recycle: bool)
      requires Valid() && up
      modifies this
      ensures Valid() && Now() == M.Step(old(Now()), if recycle then M.Recycle else M.Stop)
    {
      M.StepKeeps(Now(), if recycle then M.Recycle else M.Stop);
      M.StepKeepsBooks(Now(), if recycle then M.Recycle else M.Stop);
      hide M.Inv, M.Books;
      channels, totals := M.CloseAll(channels, pending), M.DroppedTotals(totals, pending);
      up, pending := false, map[];
    }
  }

  // ---- Facts about the draining loop ----

  ghost predicate Distinct(all: map<M.Guid, M.Request>) {
    forall g, h :: g in all && h in all && all[g].n == all[h].n ==> g == h
  }

  lemma InvAddresses(s: M.Wire)
    requires M.Inv(s)
    ensures Distinct(s.pending) && forall g :: g in s.pending ==> s.pending[g].n < |s.channels|
  {
    forall g | g in s.pending ensures s.pending[g].n < |s.channels| { assert M.GoodRequest(s, g); }
  }

  lemma NothingInFlight(t: M.Totals, p: map<M.Guid, M.Request>)
    requires p.Keys == {}
    ensures M.FailedTotals(t, p) == t && |p| == 0
  {
    assert p == map[];
    forall op { M.CountNone(op); }
  }

  lemma TellNone(before: seq<M.Channel>)
    ensures M.TellAll(before, map[]) == before
  {
  }

  lemma TellOne(before: seq<M.Channel>, all: map<M.Guid, M.Request>, told: map<M.Guid, M.Request>, g: M.Guid)
    requires Distinct(all) && g in all && g !in told
    requires forall h :: h in told ==> h in all && told[h] == all[h]
    requires forall h :: h in all ==> all[h].n < |before|
    ensures var r, sofar := all[g], M.TellAll(before, told);
            M.TellAll(before, told[g := r]) == sofar[r.n := M.Told(sofar[r.n], M.TransportFailure(r.guid, r.opcode))]
  {
    var r, more := all[g], told[g := all[g]];
    assert !M.Waiting(told, r.n);
    forall i: nat | i < |before|
      ensures M.Waiting(more, i) <==> M.Waiting(told, i) || i == r.n
      ensures i != r.n && M.Waiting(told, i) ==> M.WaitingAt(more, i) == M.WaitingAt(told, i)
      ensures i == r.n ==> M.WaitingAt(more, i) == r
    {
      assert g in more && more[g].n == r.n;
      if M.Waiting(told, i) {
        var h :| h in told && told[h].n == i;
        assert h in more && more[h].n == i;
      }
    }
  }
}
