/** What each caller of the command session hears, read off the events alone. */
module CwsAnswers {
  import opened Results
  import opened CwsModel
  import opened CwsRuns
  import opened CwsCounters

  // ---- The events, without the session's state ----

  /** The event ends a session. */
  predicate Ends(e: Event) { e.Lost? || e.Recycle? || e.Stop? || (e.Send? && !e.written) }

  /** A session is up: some connect came after the last event that ends one. */
  predicate Up(events: seq<Event>) {
    events != [] &&
    var init, e := events[..|events| - 1], events[|events| - 1];
    e.Connect? || (Up(init) && !Ends(e))
  }

  predicate IsSend(events: seq<Event>, k: nat)
    requires k < |events|
  {
    events[k].Send? && Up(events[..k])
  }

  /** The number of accepted sends. */
  function Sends(events: seq<Event>): nat {
    if events == [] then 0 else
      var init := events[..|events| - 1];
      Sends(init) + if IsSend(events, |events| - 1) then 1 else 0
  }

  /** The event decides what a caller waiting under this guid hears: an answer to it, a send that reuses it, or the
      end of the session. */
  predicate Decides(e: Event, guid: Guid) { Ends(e) || ((e.Answer? || e.Send?) && e.guid == guid) }

  /** `j` is the first event after the send `k` that decides what its caller hears. */
  ghost predicate FirstDecision(events: seq<Event>, k: nat, j: nat)
    requires k < |events| && events[k].Send?
  {
    && k < j < |events| && Decides(events[j], events[k].guid)
    && forall m :: k < m < j ==> !Decides(events[m], events[k].guid)
  }

  function Verdict(e: Event, guid: Guid): Outcome {
    match e
    case Answer(g, success) => if g != guid then Open else if success then Won else Refused
    case Send(g, _, written) => if g == guid then Forgotten else if written then Open else Broken
    case Lost => Broken
    case Recycle => Forgotten
    case Stop => Forgotten
    case _ => Open
  }

  /** What has become of the send `k`. */
  function FateOf(events: seq<Event>, k: nat): Outcome
    requires k < |events| && events[k].Send?
  {
    if |events| == k + 1 then (if events[k].written then Open else Broken)
    else
      var before := FateOf(events[..|events| - 1], k);
      if before != Open then before else Verdict(events[|events| - 1], events[k].guid)
  }

  /** A written send is open while nothing has decided it; otherwise the first decision gives its fate, for good. */
  lemma {:induction false} FateExact(events: seq<Event>, k: nat)
    requires k < |events| && events[k].Send? && events[k].written
    ensures FateOf(events, k) == Open <==> forall m :: k < m < |events| ==> !Decides(events[m], events[k].guid)
    ensures forall j :: 0 <= j < |events| && FirstDecision(events, k, j) ==>
      FateOf(events, k) == Verdict(events[j], events[k].guid) != Open
  {
    if |events| > k + 1 {
      var n := |events| - 1;
      var init := events[..n];
      FateExact(init, k);
      assert forall m {:trigger events[m]} :: 0 <= m < n ==> events[m] == init[m];
      forall j | 0 <= j < |events| && FirstDecision(events, k, j)
        ensures FateOf(events, k) == Verdict(events[j], events[k].guid) != Open
      {
        if j < n { assert FirstDecision(init, k, j); }
      }
    }
  }

  // ---- The session keeps to it ----

  lemma StepUp(s: Wire, e: Event)
    requires Numbered(s)
    ensures Step(s, e).up <==> e.Connect? || (s.up && !Ends(e))
  {
  }

  lemma {:induction false} UpExact(events: seq<Event>)
    ensures Run(events).up == Up(events)
  {
    if events != [] {
      hide Step;
      var init := events[..|events| - 1];
      UpExact(init);
      StepKeeps(Run(init), events[|events| - 1]);
      StepUp(Run(init), events[|events| - 1]);
    }
  }

  lemma StepSends(s: Wire, e: Event)
    requires Numbered(s)
    ensures |Step(s, e).channels| == |s.channels| + if s.up && e.Send? then 1 else 0
    ensures s.up && e.Send? ==>
      var c := Step(s, e).channels[|s.channels|];
      c.guid == e.guid && c.opcode == e.opcode
  {
  }

  lemma {:induction false} SendsAreChannels(events: seq<Event>)
    ensures |Run(events).channels| == Sends(events)
  {
    if events != [] {
      hide Step;
      var init, e := events[..|events| - 1], events[|events| - 1];
      SendsAreChannels(init);
      UpExact(init);
      StepKeeps(Run(init), e);
      StepSends(Run(init), e);
    }
  }

  /** A channel in flight, seen from the pending map. */
  lemma OpenIsPending(s: Wire, i: nat)
    requires Inv(s) && i < |s.channels| && OutcomeOf(s.channels[i]) == Open
    ensures var g := s.channels[i].guid; s.up && g in s.pending && s.pending[g].n == i
    ensures s.channels[i].replies == [] && !s.channels[i].closed
  {
    assert Settled(s, i);
    OpenIsWaiting(s, i);
    var g :| g in s.pending && s.pending[g].n == i;
    assert GoodRequest(s, g);
  }

  /** A channel that is no longer in flight is not in the pending map. */
  lemma ClosedIsAbsent(s: Wire, i: nat, g: Guid)
    requires Inv(s) && i < |s.channels| && OutcomeOf(s.channels[i]) != Open && g in s.pending
    ensures s.pending[g].n != i
  {
    OpenIsWaiting(s, i);
  }

  /** One event, seen from one channel: exactly one reply about the answer, the failure, or silence. */
  ghost predicate Turns(c: Channel, c': Channel, e: Event) {
    && c'.guid == c.guid && c'.opcode == c.opcode
    && if OutcomeOf(c) != Open then c' == c
       else
         match Verdict(e, c.guid)
         case Open => c' == c
         case Won => c' == c.(replies := [Response(true)])
         case Refused => c' == c.(replies := [Response(false)])
         case Broken => c' == c.(replies := [TransportFailure(c.guid, c.opcode)])
         case Forgotten => c' == c.(closed := true)
  }

  lemma DisplaceTurns(s: Wire, guid: Guid, i: nat)
    requires Inv(s) && Numbered(s) && i < |s.channels|
    ensures var c := s.channels[i];
            Displace(s, guid).channels[i] == if OutcomeOf(c) == Open && c.guid == guid then c.(closed := true) else c
  {
    var c := s.channels[i];
    if OutcomeOf(c) == Open {
      OpenIsPending(s, i);
      if guid in s.pending && guid != c.guid { assert s.pending[guid].n != i; }
    } else if guid in s.pending {
      ClosedIsAbsent(s, i, guid);
    }
  }

  lemma FailAllTurns(s: Wire, i: nat)
    requires Inv(s) && i < |s.channels|
    ensures var c := s.channels[i];
            FailAll(s).channels[i] == if OutcomeOf(c) == Open then FailedChannel(c) else c
    ensures var c := s.channels[i];
            DropAll(s).channels[i] == if OutcomeOf(c) == Open then c.(closed := true) else c
  {
    FailureExact(s, i);
    OpenIsWaiting(s, i);
  }

  lemma ResolveTurns(s: Wire, guid: Guid, success: bool, i: nat)
    requires Inv(s) && Numbered(s) && i < |s.channels|
    ensures var c := s.channels[i];
            Resolve(s, guid, success).channels[i]
            == if OutcomeOf(c) == Open && c.guid == guid then c.(replies := [Response(success)]) else c
  {
    var c := s.channels[i];
    if OutcomeOf(c) == Open {
      OpenIsPending(s, i);
      if guid in s.pending && guid != c.guid { assert s.pending[guid].n != i; }
    } else if guid in s.pending {
      ClosedIsAbsent(s, i, guid);
    }
  }

  lemma SendTurns(s: Wire, guid: Guid, op: Opcode, written: bool, i: nat)
    requires Inv(s) && Numbered(s) && s.up && i < |s.channels|
    ensures Turns(s.channels[i], Step(s, Send(guid, op, written)).channels[i], Send(guid, op, written))
  {
    hide Inv, FailAll, Displace;
    DisplaceTurns(s, guid, i);
    DisplaceKeeps(s, guid);
    AcceptKeeps(Displace(s, guid), guid, op);
    SameCount(s, guid);
    FailAllTurns(Accept(Displace(s, guid), guid, op), i);
  }

  lemma SameCount(s: Wire, guid: Guid)
    requires Numbered(s)
    ensures |Displace(s, guid).channels| == |s.channels|
  {
  }

  lemma StepTurns(s: Wire, e: Event, i: nat)
    requires Inv(s) && Numbered(s) && i < |s.channels|
    ensures i < |Step(s, e).channels| && Turns(s.channels[i], Step(s, e).channels[i], e)
  {
    StepSends(s, e);
    if !s.up {
      if OutcomeOf(s.channels[i]) == Open { OpenIsPending(s, i); }
    } else {
      hide Inv, FailAll, DropAll, Displace, Accept, Resolve;
      match e
      case Connect =>
      case OtherFrame =>
      case Send(guid, op, written) => SendTurns(s, guid, op, written, i);
      case Answer(guid, success) => ResolveTurns(s, guid, success, i);
      case Lost => FailAllTurns(s, i);
      case Recycle => FailAllTurns(s, i);
      case Stop => FailAllTurns(s, i);
    }
  }

  /** The channel of a fresh send. */
  lemma NewChannel(s: Wire, e: Event)
    requires Inv(s) && Numbered(s) && s.up && e.Send?
    ensures |Step(s, e).channels| == |s.channels| + 1
    ensures Step(s, e).channels[|s.channels|] ==
      Channel(e.guid, e.opcode, if e.written then [] else [TransportFailure(e.guid, e.opcode)], false)
  {
    DisplaceKeeps(s, e.guid);
    AcceptKeeps(Displace(s, e.guid), e.guid, e.opcode);
    SameCount(s, e.guid);
    hide Inv, FailAll, Displace;
    FailAllTurns(Accept(Displace(s, e.guid), e.guid, e.opcode), |s.channels|);
  }

  /** A channel whose content is exactly what an outcome leaves on it. */
  function ChannelOf(guid: Guid, op: Opcode, o: Outcome): Channel {
    match o
    case Open => Channel(guid, op, [], false)
    case Won => Channel(guid, op, [Response(true)], false)
    case Refused => Channel(guid, op, [Response(false)], false)
    case Broken => Channel(guid, op, [TransportFailure(guid, op)], false)
    case Forgotten => Channel(guid, op, [], true)
  }

  /** In every run the channel of each accepted send holds exactly what its fate says: one success or refusal if the
      first event to decide it was such an answer to its guid, one failure about itself if that was a loss of the
      session, silence if its guid was reused or the session recycled or stopped. */
  lemma {:induction false} RepliesExact(events: seq<Event>, k: nat)
    requires k < |events| && IsSend(events, k)
    ensures Sends(events[..k]) < |Run(events).channels|
    ensures Run(events).channels[Sends(events[..k])] == ChannelOf(events[k].guid, events[k].opcode, FateOf(events, k))
  {
    var n := |events| - 1;
    var init, e := events[..n], events[n];
    var i := Sends(events[..k]);
    StepKeeps(Run(init), e);
    if k == n {
      UpExact(init);
      SendsAreChannels(init);
      hide Step, Inv;
      NewChannel(Run(init), e);
    } else {
      assert init[..k] == events[..k] && init[k] == events[k];
      RepliesExact(init, k);
      hide Step, Inv;
      StepTurns(Run(init), e, i);
    }
  }

  /** A caller hears a response if and only if the first event to decide its send is that answer, in the session of
      the send. */
  lemma AnswersExact(events: seq<Event>, k: nat, success: bool)
    requires k < |events| && IsSend(events, k)
    ensures Sends(events[..k]) < |Run(events).channels|
    ensures Response(success) in Run(events).channels[Sends(events[..k])].replies <==>
      events[k].written && exists j :: 0 <= j < |events| && FirstDecision(events, k, j)
                                      && events[j] == Answer(events[k].guid, success)
  {
    hide Run;
    RepliesExact(events, k);
    if events[k].written {
      FateExact(events, k);
      if FateOf(events, k) != Open { var _ := SomeFirst(events, k); }
    } else {
      UnwrittenBroken(events, k);
    }
  }

  lemma {:induction false} UnwrittenBroken(events: seq<Event>, k: nat)
    requires k < |events| && events[k].Send? && !events[k].written
    ensures FateOf(events, k) == Broken
  {
    if |events| > k + 1 { UnwrittenBroken(events[..|events| - 1], k); }
  }

  lemma SomeFirst(events: seq<Event>, k: nat) returns (j: nat)
    requires k < |events| && events[k].Send? && exists m :: k < m < |events| && Decides(events[m], events[k].guid)
    ensures j < |events| && FirstDecision(events, k, j)
  {
    j := k + 1;
    while !Decides(events[j], events[k].guid)
      invariant k < j < |events| && forall m :: k < m < j ==> !Decides(events[m], events[k].guid)
      decreases |events| - j
    {
      j := j + 1;
    }
  }

  // ---- Counters, read off the events ----

  /** The number of accepted sends of a kind among the first `n` events with a given fate in the whole run. */
  function SendsWith(events: seq<Event>, n: nat, op: Opcode, o: Outcome): nat
    requires n <= |events|
  {
    if n == 0 then 0 else
      SendsWith(events, n - 1, op, o)
      + if IsSend(events, n - 1) && events[n - 1].opcode == op && FateOf(events, n - 1) == o then 1 else 0
  }

  lemma CountPrefix(channels: seq<Channel>, i: nat, op: Opcode, o: Outcome)
    requires i < |channels|
    ensures CountOf(channels[..i + 1], op, o) == CountOf(channels[..i], op, o) + One(channels[i], op, o)
  {
    assert channels[..i + 1][..i] == channels[..i];
  }

  lemma SendsPrefix(events: seq<Event>, n: nat)
    requires n < |events|
    ensures Sends(events[..n + 1]) == Sends(events[..n]) + if IsSend(events, n) then 1 else 0
  {
    assert events[..n + 1][..n] == events[..n] && events[..n + 1][n] == events[n];
  }

  lemma {:induction false} SendsWithExact(events: seq<Event>, n: nat, op: Opcode, o: Outcome)
    requires n <= |events|
    ensures Sends(events[..n]) <= |Run(events).channels|
    ensures SendsWith(events, n, op, o) == CountOf(Run(events).channels[..Sends(events[..n])], op, o)
  {
    hide Run, FateOf, OutcomeOf, Sends, ChannelOf;
    var channels := Run(events).channels;
    if n == 0 {
      NoSends(events);
    } else {
      SendsWithExact(events, n - 1, op, o);
      SendsPrefix(events, n - 1);
      var e := events[n - 1];
      if IsSend(events, n - 1) {
        RepliesExact(events, n - 1);
        OutcomeOfChannel(e.guid, e.opcode, FateOf(events, n - 1));
        CountPrefix(channels, Sends(events[..n - 1]), op, o);
      }
    }
  }

  lemma NoSends(events: seq<Event>)
    ensures Sends(events[..0]) == 0
  {
  }

  lemma OutcomeOfChannel(guid: Guid, op: Opcode, o: Outcome)
    ensures OutcomeOf(ChannelOf(guid, op, o)) == o && ChannelOf(guid, op, o).opcode == op
  {
  }

  /** In every run the counters of a kind are: sends; sends first decided by a successful answer; sends first decided
      by a refusal or by the loss of their session. */
  lemma CountersFromEvents(events: seq<Event>, op: Opcode)
    requires op != Other
    ensures var t, n := Get(Run(events).totals, op), |events|;
            && t.success == SendsWith(events, n, op, Won)
            && t.failure == SendsWith(events, n, op, Refused) + SendsWith(events, n, op, Broken)
            && t.sent == SendsWith(events, n, op, Open) + SendsWith(events, n, op, Forgotten) + t.success + t.failure
  {
    hide Run, Get;
    CountersExact(events, op);
    SendsAreChannels(events);
    assert events[..|events|] == events;
    var channels := Run(events).channels;
    assert channels[..|channels|] == channels;
    forall o ensures SendsWith(events, |events|, op, o) == CountOf(channels, op, o) {
      SendsWithExact(events, |events|, op, o);
    }
    SendsPartition(channels, op);
  }
}
