/** The control counters of the command session count what was put on the reply channels. */
module CwsCounters {
  import opened Results
  import opened CwsModel
  import opened CwsRuns

  /** How an accepted send has ended, if it has. */
  datatype Outcome = Open | Won | Refused | Broken | Forgotten

  function OutcomeOf(c: Channel): Outcome {
    if c.closed then Forgotten
    else if c.replies == [] then Open
    else match c.replies[0]
      case Response(success) => if success then Won else Refused
      case TransportFailure(_, _) => Broken
  }

  function CountOf(channels: seq<Channel>, op: Opcode, o: Outcome): nat {
    if channels == [] then 0 else
      var last := channels[|channels| - 1];
      CountOf(channels[..|channels| - 1], op, o) + if last.opcode == op && OutcomeOf(last) == o then 1 else 0
  }

  function SendsOf(channels: seq<Channel>, op: Opcode): nat {
    if channels == [] then 0 else
      SendsOf(channels[..|channels| - 1], op) + if channels[|channels| - 1].opcode == op then 1 else 0
  }

  /** Each counter is the number of sends of its kind with that outcome. */
  ghost predicate Counted(s: Wire, op: Opcode) {
    var t, c := Get(s.totals, op), s.channels;
    && t.success == CountOf(c, op, Won)
    && t.failure == CountOf(c, op, Refused) + CountOf(c, op, Broken)
    && t.abandoned == CountOf(c, op, Forgotten)
    && InFlight(s.pending, op) == CountOf(c, op, Open)
  }

  ghost predicate AllCounted(s: Wire) { forall op :: op != Other ==> Counted(s, op) }

  function One(c: Channel, op: Opcode, o: Outcome): nat { if c.opcode == op && OutcomeOf(c) == o then 1 else 0 }

  lemma {:induction false} CountUpdate(channels: seq<Channel>, i: nat, c: Channel, op: Opcode, o: Outcome)
    requires i < |channels|
    ensures CountOf(channels[i := c], op, o) + One(channels[i], op, o) == CountOf(channels, op, o) + One(c, op, o)
  {
    var n := |channels| - 1;
    if i < n {
      assert channels[i := c][..n] == channels[..n][i := c];
      CountUpdate(channels[..n], i, c, op, o);
    } else {
      assert channels[i := c][..n] == channels[..n];
    }
  }

  lemma CountAppend(channels: seq<Channel>, c: Channel, op: Opcode, o: Outcome)
    ensures CountOf(channels + [c], op, o) == CountOf(channels, op, o) + One(c, op, o)
  {
    assert (channels + [c])[..|channels|] == channels;
  }

  lemma {:induction false} SendsPartition(channels: seq<Channel>, op: Opcode)
    ensures SendsOf(channels, op) == CountOf(channels, op, Open) + CountOf(channels, op, Won)
                                   + CountOf(channels, op, Refused) + CountOf(channels, op, Broken)
                                   + CountOf(channels, op, Forgotten)
  {
    if channels != [] { SendsPartition(channels[..|channels| - 1], op); }
  }

  /** Every open channel moves to the outcome `to`; the others stay. */
  ghost predicate Moved(before: seq<Channel>, after: seq<Channel>, to: Outcome) {
    && |after| == |before|
    && forall i :: 0 <= i < |before| ==>
         if OutcomeOf(before[i]) == Open then after[i].opcode == before[i].opcode && OutcomeOf(after[i]) == to
         else after[i] == before[i]
  }

  lemma {:induction false} CountMoved(before: seq<Channel>, after: seq<Channel>, to: Outcome, op: Opcode, o: Outcome)
    requires Moved(before, after, to) && to != Open
    ensures CountOf(after, op, o)
         == if o == Open then 0 else CountOf(before, op, o) + if o == to then CountOf(before, op, Open) else 0
  {
    if before != [] {
      var n := |before| - 1;
      MovedPrefix(before, after, to);
      CountMoved(before[..n], after[..n], to, op, o);
      hide OutcomeOf, Moved;
      assert One(after[n], op, o)
          == if o == Open then 0 else One(before[n], op, o) + if o == to then One(before[n], op, Open) else 0;
    }
  }

  lemma MovedPrefix(before: seq<Channel>, after: seq<Channel>, to: Outcome)
    requires before != [] && Moved(before, after, to) && to != Open
    ensures var n := |before| - 1;
            && Moved(before[..n], after[..n], to)
            && (if OutcomeOf(before[n]) == Open then after[n].opcode == before[n].opcode && OutcomeOf(after[n]) == to
                else after[n] == before[n])
  {
    hide OutcomeOf;
    var n := |before| - 1;
    assert forall i {:trigger before[..n][i]} :: 0 <= i < n ==>
      before[..n][i] == before[i] && after[..n][i] == after[i];
  }

  lemma OpenIsWaiting(s: Wire, i: nat)
    requires Inv(s) && i < |s.channels|
    ensures OutcomeOf(s.channels[i]) == Open <==> Waiting(s.pending, i)
  {
    assert Settled(s, i);
  }

  lemma EndMoves(s: Wire)
    requires Inv(s)
    ensures Moved(s.channels, FailAll(s).channels, Broken) && Moved(s.channels, DropAll(s).channels, Forgotten)
  {
    hide Waiting;
    forall i: nat | i < |s.channels|
      ensures if OutcomeOf(s.channels[i]) == Open
              then FailAll(s).channels[i].opcode == s.channels[i].opcode && OutcomeOf(FailAll(s).channels[i]) == Broken
                   && DropAll(s).channels[i].opcode == s.channels[i].opcode
                   && OutcomeOf(DropAll(s).channels[i]) == Forgotten
              else FailAll(s).channels[i] == s.channels[i] && DropAll(s).channels[i] == s.channels[i]
    {
      OpenIsWaiting(s, i);
    }
  }

  lemma EndCounted(s: Wire)
    requires Inv(s) && AllCounted(s)
    ensures AllCounted(FailAll(s)) && AllCounted(DropAll(s))
  {
    EndMoves(s);
    hide Inv, InFlight, TellAll, CloseAll;
    forall op | op != Other ensures Counted(FailAll(s), op) && Counted(DropAll(s), op) {
      assert Counted(s, op);
      forall o { CountMoved(s.channels, FailAll(s).channels, Broken, op, o); }
      forall o { CountMoved(s.channels, DropAll(s).channels, Forgotten, op, o); }
      CountNone(op);
    }
  }

  /** A request in flight leaves with outcome `o`. */
  lemma ReleaseCounted(s: Wire, guid: Guid, c: Channel, op: Opcode)
    requires Inv(s) && guid in s.pending && Counted(s, op)
    requires c.opcode == s.pending[guid].opcode && OutcomeOf(c) != Open
    ensures var channels := s.channels[s.pending[guid].n := c];
            && InFlight(s.pending - {guid}, op) == CountOf(channels, op, Open)
            && forall o :: o != Open ==> CountOf(channels, op, o) == CountOf(s.channels, op, o) + One(c, op, o)
  {
    var n := s.pending[guid].n;
    assert GoodRequest(s, guid);
    assert Waiting(s.pending, n);
    OpenIsWaiting(s, n);
    CountOut(s.pending, guid, op);
    forall o
      ensures CountOf(s.channels[n := c], op, o) + One(s.channels[n], op, o)
          == CountOf(s.channels, op, o) + One(c, op, o)
    {
      CountUpdate(s.channels, n, c, op, o);
    }
  }

  lemma InFlightChannel(s: Wire, guid: Guid)
    requires Inv(s) && guid in s.pending
    ensures var n := s.pending[guid].n;
            n < |s.channels| && s.channels[n].opcode == s.pending[guid].opcode && OutcomeOf(s.channels[n]) == Open
  {
    assert GoodRequest(s, guid);
    assert Waiting(s.pending, s.pending[guid].n);
    OpenIsWaiting(s, s.pending[guid].n);
  }

  lemma AnswerCounted(s: Wire, guid: Guid, success: bool)
    requires Inv(s) && AllCounted(s) && Numbered(s)
    ensures AllCounted(Resolve(s, guid, success))
  {
    if guid in s.pending {
      InFlightChannel(s, guid);
      var n := s.pending[guid].n;
      var c := Told(s.channels[n], Response(success));
      forall op | op != Other ensures Counted(Resolve(s, guid, success), op) {
        hide Inv, InFlight;
        assert Counted(s, op);
        ReleaseCounted(s, guid, c, op);
      }
    }
  }

  lemma DisplaceCounted(s: Wire, guid: Guid)
    requires Inv(s) && AllCounted(s) && Numbered(s)
    ensures AllCounted(Displace(s, guid))
  {
    if guid in s.pending {
      InFlightChannel(s, guid);
      var c := s.channels[s.pending[guid].n].(closed := true);
      forall op | op != Other ensures Counted(Displace(s, guid), op) {
        hide Inv, InFlight;
        assert Counted(s, op);
        ReleaseCounted(s, guid, c, op);
      }
    }
  }

  lemma AcceptCounted(s: Wire, guid: Guid, op: Opcode)
    requires AllCounted(s) && guid !in s.pending
    ensures AllCounted(Accept(s, guid, op))
  {
    hide InFlight;
    var c := Channel(guid, op, [], false);
    forall x | x != Other ensures Counted(Accept(s, guid, op), x) {
      assert Counted(s, x);
      CountIn(s.pending, guid, Request(|s.channels|, guid, op), x);
      forall o ensures CountOf(s.channels + [c], x, o) == CountOf(s.channels, x, o) + One(c, x, o) {
        CountAppend(s.channels, c, x, o);
      }
    }
  }

  lemma StepCounted(s: Wire, e: Event)
    requires Inv(s) && Numbered(s) && AllCounted(s)
    ensures AllCounted(Step(s, e))
  {
    if !s.up {
      ReconnectKeeps(s);
      forall op | op != Other ensures Counted(s.(up := true), op) { assert Counted(s, op); }
    } else {
      hide Inv, AllCounted, FailAll, DropAll, Displace, Accept, Resolve;
      match e
      case Connect =>
      case OtherFrame =>
      case Send(guid, op, written) =>
        DisplaceKeeps(s, guid);
        DisplaceCounted(s, guid);
        AcceptKeeps(Displace(s, guid), guid, op);
        AcceptCounted(Displace(s, guid), guid, op);
        EndCounted(Accept(Displace(s, guid), guid, op));
      case Answer(guid, success) => AnswerCounted(s, guid, success);
      case Lost => EndCounted(s);
      case Recycle => EndCounted(s);
      case Stop => EndCounted(s);
    }
  }

  /** In every run, per kind of control request: the send counter is the number of sends, the success counter the
      number of successes put on reply channels, the failure counter the refusals and transport failures put there,
      whether or not the caller still listens; the rest are in flight or forgotten. */
  lemma {:induction false} CountersExact(events: seq<Event>, op: Opcode)
    requires op != Other
    ensures AllCounted(Run(events)) && Counted(Run(events), op)
    ensures Get(Run(events).totals, op).sent == SendsOf(Run(events).channels, op)
  {
    if events == [] {
      forall x | x != Other ensures Counted(Start, x) { CountNone(x); }
    } else {
      hide Step, Inv, Counted;
      var init, e := events[..|events| - 1], events[|events| - 1];
      CountersExact(init, op);
      StepKeeps(Run(init), e);
      StepCounted(Run(init), e);
    }
    SendsExact(Run(events), op);
  }

  lemma SendsExact(s: Wire, op: Opcode)
    requires Books(s) && AllCounted(s) && op != Other
    ensures Counted(s, op) && Get(s.totals, op).sent == SendsOf(s.channels, op)
  {
    assert Balanced(s, op) && Counted(s, op);
    SendsPartition(s.channels, op);
  }
}
