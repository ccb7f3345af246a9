/** The command session over whole runs: one reply at most, exact failures, and when the counters balance. */
module CwsRuns {
  import opened Results
  import opened CwsModel

  ghost function Run(events: seq<Event>): (s: Wire)
    ensures Inv(s) && Books(s)
  {
    if events == [] then
      StartIsGood();
      Start
    else
      var init := Run(events[..|events| - 1]);
      StepKeeps(init, events[|events| - 1]);
      StepKeepsBooks(init, events[|events| - 1]);
      Step(init, events[|events| - 1])
  }

  lemma StartIsGood()
    ensures Inv(Start) && Books(Start)
  {
    forall op ensures Balanced(Start, op) { CountNone(op); }
  }

  // ---- Replies are final ----

  predicate Extends(c: Channel, c': Channel) {
    c'.guid == c.guid && c'.opcode == c.opcode && c.replies <= c'.replies && (c.closed ==> c'.closed)
  }

  ghost predicate Grows(s: Wire, s': Wire) {
    |s.channels| <= |s'.channels| && forall i :: 0 <= i < |s.channels| ==> Extends(s.channels[i], s'.channels[i])
  }

  lemma SendGrows(s: Wire, guid: Guid, op: Opcode)
    requires Numbered(s)
    ensures Grows(s, Accept(Displace(s, guid), guid, op))
  {
    hide Abandoned, Sent;
  }

  lemma EndGrows(s: Wire)
    ensures Grows(s, FailAll(s)) && Grows(s, DropAll(s))
  {
    hide FailedTotals, DroppedTotals;
  }

  lemma StepGrows(s: Wire, e: Event)
    requires Numbered(s)
    ensures Grows(s, Step(s, e))
  {
    if s.up {
      hide FailAll, DropAll, Finished;
      EndGrows(s);
      if e.Send? {
        hide Accept, Displace;
        SendGrows(s, e.guid, e.opcode);
        EndGrows(Accept(Displace(s, e.guid), e.guid, e.opcode));
      }
    }
  }

  lemma {:induction false} RunGrows(events: seq<Event>, k: nat)
    requires k <= |events|
    ensures Grows(Run(events[..k]), Run(events))
    decreases |events|
  {
    hide Step;
    if k < |events| {
      var init := events[..|events| - 1];
      assert init[..k] == events[..k];
      RunGrows(init, k);
      StepKeeps(Run(init), events[|events| - 1]);
      StepGrows(Run(init), events[|events| - 1]);
    } else {
      assert events[..k] == events;
    }
  }

  lemma SettledAt(s: Wire, i: nat)
    requires Inv(s) && i < |s.channels|
    ensures Settled(s, i)
  {
  }

  /** The reply heard on a channel is the only one it will ever hear, and is about its own send. */
  lemma OneReplyEver(events: seq<Event>, k: nat, i: nat)
    requires k <= |events| && i < |Run(events[..k]).channels|
    ensures i < |Run(events).channels| && |Run(events).channels[i].replies| <= 1
    ensures var c, later := Run(events[..k]).channels[i], Run(events).channels[i];
            && c.guid == later.guid && c.opcode == later.opcode
            && (c.replies != [] ==> later.replies == c.replies && !later.closed && !Waiting(Run(events).pending, i))
            && (c.closed ==> later.replies == [])
            && (forall r :: r in later.replies ==> r.Response? || r == TransportFailure(c.guid, c.opcode))
  {
    hide Run, Inv, Waiting;
    RunGrows(events, k);
    var s, s' := Run(events[..k]), Run(events);
    assert Extends(s.channels[i], s'.channels[i]);
    SettledAt(s, i);
    SettledAt(s', i);
  }

  // ---- Transport failures ----

  /** The channel of a caller that heard of a transport failure only. */
  function FailedChannel(c: Channel): Channel { c.(replies := [TransportFailure(c.guid, c.opcode)]) }

  /** A transport failure ends the session with nothing in flight; every caller in flight hears of it exactly once,
      with the guid and opcode of its own send, and no one else hears anything. */
  lemma FailureExact(s: Wire, i: nat)
    requires Inv(s) && i < |s.channels|
    ensures var s' := FailAll(s);
            && s'.pending == map[] && !s'.up && s'.failedTotal == s.failedTotal + |s.pending|
            && s'.channels[i] == if Waiting(s.pending, i)
                                 then FailedChannel(s.channels[i])
                                 else s.channels[i]
  {
    assert Settled(s, i);
    if Waiting(s.pending, i) { assert GoodRequest(s, WaitingAt(s.pending, i).guid); }
  }

  ghost function FailedCallers(s: Wire): set<nat> {
    set i: nat | i < |s.channels| && exists r :: r in s.channels[i].replies && r.TransportFailure?
  }

  ghost function Callers(pending: map<Guid, Request>): set<nat> { set g | g in pending :: pending[g].n }

  lemma {:induction false} CallersSize(pending: map<Guid, Request>)
    requires forall g, h :: g in pending && h in pending && pending[g].n == pending[h].n ==> g == h
    ensures |Callers(pending)| == |pending|
    decreases |pending|
  {
    if exists g :: g in pending {
      var guid :| guid in pending;
      var less := pending - {guid};
      CallersSize(less);
      assert pending.Keys == less.Keys + {guid};
      forall i ensures i in Callers(pending) <==> i in Callers(less) || i == pending[guid].n {
        if i in Callers(pending) && i != pending[guid].n {
          var g :| g in pending && pending[g].n == i;
          assert g in less && less[g].n == i;
        }
      }
      assert Callers(pending) == Callers(less) + {pending[guid].n};
      assert pending[guid].n !in Callers(less);
    } else {
      assert pending.Keys == {} && Callers(pending) == {};
    }
  }

  ghost predicate FailuresCounted(s: Wire) { s.failedTotal == |FailedCallers(s)| }

  lemma FailedAfter(s: Wire, i: nat)
    requires Inv(s) && i < |s.channels|
    ensures i in FailedCallers(FailAll(s)) <==> i in FailedCallers(s) || i in Callers(s.pending)
    ensures !(i in FailedCallers(s) && i in Callers(s.pending))
  {
    FailureExact(s, i);
    InvAt(s, i);
    FailAllShape(s);
    WaitingIsCaller(s.pending, i);
    hide Inv, FailAll, Waiting, Callers;
    var c := FailAll(s).channels[i];
    if Waiting(s.pending, i) { assert c.replies[0].TransportFailure? && c.replies[0] in c.replies; }
  }

  lemma FailedCallersBound(s: Wire)
    ensures forall i :: i in FailedCallers(s) ==> i < |s.channels|
  {
  }

  lemma FailAllCounts(s: Wire)
    requires Inv(s) && FailuresCounted(s)
    ensures FailuresCounted(FailAll(s))
  {
    hide Inv, FailAll, FailedCallers, Callers;
    CallersSize(s.pending) by { InvParts(s); }
    FailAllShape(s);
    var s' := FailAll(s);
    FailedCallersBound(s);
    FailedCallersBound(s');
    forall i: nat | i < |s.channels|
      ensures i in FailedCallers(s') <==> i in FailedCallers(s) || i in Callers(s.pending)
      ensures !(i in FailedCallers(s) && i in Callers(s.pending))
    {
      FailedAfter(s, i);
    }
    assert FailedCallers(s') == FailedCallers(s) + Callers(s.pending);
  }

  lemma WaitingIsCaller(pending: map<Guid, Request>, i: nat)
    ensures Waiting(pending, i) <==> i in Callers(pending)
  {
  }

  lemma FailAllShape(s: Wire)
    requires Inv(s)
    ensures |FailAll(s).channels| == |s.channels| && FailAll(s).failedTotal == s.failedTotal + |s.pending|
    ensures forall i :: i in Callers(s.pending) ==> i < |s.channels|
  {
    forall i | i in Callers(s.pending) ensures i < |s.channels| {
      var g :| g in s.pending && s.pending[g].n == i;
      assert GoodRequest(s, g);
    }
  }

  lemma InvParts(s: Wire)
    requires Inv(s)
    ensures forall g, h :: g in s.pending && h in s.pending && s.pending[g].n == s.pending[h].n ==> g == h
  {
  }

  lemma InvAt(s: Wire, i: nat)
    requires Inv(s) && i < |s.channels|
    ensures Waiting(s.pending, i) ==> s.channels[i].replies == []
  {
    assert Settled(s, i);
  }

  /** Steps that report no transport failure leave the set of failed callers alone. */
  lemma SameFailures(s: Wire, s': Wire)
    requires FailuresCounted(s) && s'.failedTotal == s.failedTotal && |s'.channels| >= |s.channels|
    requires forall i :: 0 <= i < |s.channels| ==>
      s'.channels[i].replies == s.channels[i].replies
      || exists x :: s'.channels[i].replies == s.channels[i].replies + [Response(x)]
    requires forall i :: |s.channels| <= i < |s'.channels| ==> s'.channels[i].replies == []
    ensures FailuresCounted(s')
  {
    assert FailedCallers(s') == FailedCallers(s);
  }

  lemma StepCounts(s: Wire, e: Event)
    requires Inv(s) && Numbered(s) && FailuresCounted(s)
    ensures FailuresCounted(Step(s, e))
  {
    hide FailuresCounted, FailAll;
    if !s.up {
      SameFailures(s, Step(s, e));
    } else {
      match e
      case Connect =>
      case OtherFrame =>
      case Send(guid, op, written) =>
        var s1 := Displace(s, guid);
        hide Inv;
        SameFailures(s, s1);
        DisplaceKeeps(s, guid);
        AcceptKeeps(s1, guid, op);
        SameFailures(s1, Accept(s1, guid, op));
        FailAllCounts(Accept(s1, guid, op));
      case Answer(guid, success) => SameFailures(s, Step(s, e));
      case Lost => FailAllCounts(s);
      case Recycle => SameFailures(s, Step(s, e));
      case Stop => SameFailures(s, Step(s, e));
    }
  }

  /** In every run the failed total is the number of callers told of a transport failure. */
  lemma {:induction false} FailedTotalExact(events: seq<Event>)
    ensures FailuresCounted(Run(events))
  {
    hide Step, Inv;
    if events == [] {
      assert FailedCallers(Start) == {};
    } else {
      FailedTotalExact(events[..|events| - 1]);
      StepKeeps(Run(events[..|events| - 1]), events[|events| - 1]);
      StepCounts(Run(events[..|events| - 1]), events[|events| - 1]);
    }
  }

  // ---- When the gateway's own counters balance ----

  /** The event forgets a request of this kind: its guid is reused, or its session is recycled or stopped. */
  predicate Abandons(s: Wire, e: Event, op: Opcode) {
    s.up && match e {
      case Send(guid, _, _) => guid in s.pending && s.pending[guid].opcode == op
      case Recycle => exists g :: g in s.pending && s.pending[g].opcode == op
      case Stop => exists g :: g in s.pending && s.pending[g].opcode == op
      case _ => false
    }
  }

  lemma SomeInFlight(pending: map<Guid, Request>, op: Opcode)
    ensures InFlight(pending, op) > 0 <==> exists g :: g in pending && pending[g].opcode == op
  {
    var found := set g | g in pending && pending[g].opcode == op;
    if exists g :: g in pending && pending[g].opcode == op {
      var g :| g in pending && pending[g].opcode == op;
      assert g in found;
    } else {
      assert found == {};
    }
  }

  lemma SendAbandons(s: Wire, guid: Guid, op: Opcode, x: Opcode)
    requires Numbered(s) && x != Other
    ensures Get(Accept(Displace(s, guid), guid, op).totals, x).abandoned
         == Get(s.totals, x).abandoned + if guid in s.pending && s.pending[guid].opcode == x then 1 else 0
  {
    hide InFlight;
  }

  lemma EndAbandons(s: Wire, x: Opcode)
    requires x != Other
    ensures Get(FailAll(s).totals, x).abandoned == Get(s.totals, x).abandoned
    ensures Get(DropAll(s).totals, x).abandoned == Get(s.totals, x).abandoned + InFlight(s.pending, x)
  {
    hide InFlight;
  }

  lemma StepAbandons(s: Wire, e: Event, op: Opcode)
    requires Numbered(s) && op != Other
    ensures var before, after := Get(s.totals, op).abandoned, Get(Step(s, e).totals, op).abandoned;
            after >= before && (after > before <==> Abandons(s, e, op))
  {
    hide InFlight, FailAll, DropAll, Displace, Accept, Get;
    SomeInFlight(s.pending, op);
    EndAbandons(s, op);
    if e.Send? {
      SendAbandons(s, e.guid, e.opcode, op);
      EndAbandons(Accept(Displace(s, e.guid), e.guid, e.opcode), op);
    }
    if e.Answer? { ResolveAbandons(s, e.guid, e.success, op); }
  }

  lemma ResolveAbandons(s: Wire, guid: Guid, success: bool, op: Opcode)
    requires Numbered(s)
    ensures Get(Resolve(s, guid, success).totals, op).abandoned == Get(s.totals, op).abandoned
  {
  }

  ghost predicate NeverAbandons(events: seq<Event>, op: Opcode) {
    forall i :: 0 <= i < |events| ==> !Abandons(Run(events[..i]), events[i], op)
  }

  lemma NeverAbandonsOneMore(events: seq<Event>, op: Opcode)
    requires events != []
    ensures var init, e := events[..|events| - 1], events[|events| - 1];
            NeverAbandons(events, op) <==> NeverAbandons(init, op) && !Abandons(Run(init), e, op)
  {
    hide Run, Abandons;
    var init := events[..|events| - 1];
    forall i | 0 <= i < |init|
      ensures Abandons(Run(init[..i]), init[i], op) <==> Abandons(Run(events[..i]), events[i], op)
    {
      assert init[..i] == events[..i];
    }
  }

  lemma {:induction false} AbandonedExact(events: seq<Event>, op: Opcode)
    requires op != Other
    ensures Get(Run(events).totals, op).abandoned == 0 <==> NeverAbandons(events, op)
  {
    hide Step, Inv, InFlight, Abandons, Get, NeverAbandons;
    if events == [] {
      NothingYet(op);
    } else {
      var init, e := events[..|events| - 1], events[|events| - 1];
      AbandonedExact(init, op);
      StepKeeps(Run(init), e);
      StepAbandons(Run(init), e, op);
      NeverAbandonsOneMore(events, op);
    }
  }

  lemma NothingYet(op: Opcode)
    ensures NeverAbandons([], op) && Get(Run([]).totals, op).abandoned == 0
  {
  }

  /** Sends equal successes plus failures plus requests in flight if and only if no event of the run has
      abandoned a request of that kind. */
  lemma BalanceExact(events: seq<Event>, op: Opcode)
    requires op != Other
    ensures var s := Run(events); var t := Get(s.totals, op);
            t.sent == t.success + t.failure + InFlight(s.pending, op) <==> NeverAbandons(events, op)
  {
    hide Run, InFlight, Get, NeverAbandons;
    AbandonedExact(events, op);
    assert Balanced(Run(events), op);
  }

  lemma OneSend()
    ensures var s := Run([Connect, Send(1, CreateLimit, true)]);
            && s.up && s.pending == map[1 := Request(0, 1, CreateLimit)]
            && s.channels == [Channel(1, CreateLimit, [], false)] && s.totals.create == Tally(1, 0, 0, 0)
            && InFlight(s.pending, CreateLimit) == 1
  {
    assert [Connect][..0] == [] && [Connect, Send(1, CreateLimit, true)][..1] == [Connect];
    assert Run([Connect]) == Start.(up := true, pending := map[]);
    CountNone(CreateLimit);
    CountIn(map[], 1, Request(0, 1, CreateLimit), CreateLimit);
  }

  /** A send forgotten by a recycle is missing from the books. */
  lemma RecycleUnbalances()
    ensures var s := Run([Connect, Send(1, CreateLimit, true), Recycle]);
            s.totals.create == Tally(1, 0, 0, 1) && InFlight(s.pending, CreateLimit) == 0
  {
    var send := Send(1, CreateLimit, true);
    hide InFlight;
    OneSend();
    assert [Connect, send, Recycle][..2] == [Connect, send];
    CountNone(CreateLimit);
  }

  /** So is a send displaced by another one with the same guid. */
  lemma ReuseUnbalances()
    ensures var s := Run([Connect, Send(1, CreateLimit, true), Send(1, CreateLimit, true)]);
            s.totals.create == Tally(2, 0, 0, 1) && InFlight(s.pending, CreateLimit) == 1
  {
    var send := Send(1, CreateLimit, true);
    hide InFlight;
    OneSend();
    assert [Connect, send, send][..2] == [Connect, send];
    CountNone(CreateLimit);
    CountIn(map[], 1, Request(1, 1, CreateLimit), CreateLimit);
    assert Run([Connect, send, send]).pending == map[1 := Request(1, 1, CreateLimit)];
  }

  // ---- Fresh guids and no recycle ----

  ghost predicate FreshGuids(events: seq<Event>) {
    forall i, j :: 0 <= i < j < |events| && events[i].Send? && events[j].Send? ==> events[i].guid != events[j].guid
  }

  /** Nothing is in flight under a guid that was never sent. */
  lemma {:induction false} UnsentIsAbsent(events: seq<Event>, g: Guid)
    requires forall i :: 0 <= i < |events| && events[i].Send? ==> events[i].guid != g
    ensures g !in Run(events).pending
  {
    if events != [] {
      hide Step;
      var init, e := events[..|events| - 1], events[|events| - 1];
      StepKeeps(Run(init), e);
      StillAbsent(Run(init), e, g);
      UnsentIsAbsent(init, g);
    }
  }

  lemma StillAbsent(s: Wire, e: Event, g: Guid)
    requires Numbered(s) && !(e.Send? && e.guid == g)
    ensures g !in s.pending ==> g !in Step(s, e).pending
  {
  }

  /** With fresh guids and no recycle or shutdown the counters always balance. */
  lemma FreshSessionsBalance(events: seq<Event>, op: Opcode)
    requires op != Other && FreshGuids(events)
    requires forall i :: 0 <= i < |events| ==> !events[i].Recycle? && !events[i].Stop?
    ensures var s := Run(events); var t := Get(s.totals, op);
            t.sent == t.success + t.failure + InFlight(s.pending, op)
  {
    forall i | 0 <= i < |events| ensures !Abandons(Run(events[..i]), events[i], op) {
      hide Run;
      if events[i].Send? { UnsentIsAbsent(events[..i], events[i].guid); }
    }
    BalanceExact(events, op);
  }
}
