/** The command session: requests in flight, replies, and control counters, across reconnects. */
module CwsModel {
  import opened Results

  type Guid = int

  datatype Opcode = CreateLimit | DeleteLimit | ReplaceLimit | Other

  /** A request in flight; `n` numbers the accepted sends and identifies the caller's reply channel. */
  datatype Request = Request(n: nat, guid: Guid, opcode: Opcode)

  datatype Reply = Response(success: bool) | TransportFailure(guid: Guid, opcode: Opcode)

  /** The reply channel of one accepted send; `closed` when the sender was dropped without a reply. */
  datatype Channel = Channel(guid: Guid, opcode: Opcode, replies: seq<Reply>, closed: bool)

  /** `abandoned` is not a counter of the gateway: it is the ledger entry its counters lack. */
  datatype Tally = Tally(sent: nat, success: nat, failure: nat, abandoned: nat)

  datatype Totals = Totals(create: Tally, delete: Tally, replace: Tally)

  datatype Wire = Wire(up: bool, pending: map<Guid, Request>, channels: seq<Channel>, totals: Totals, failedTotal: nat)

  datatype Event =
    | Connect
    | Send(guid: Guid, opcode: Opcode, written: bool)
    | Answer(guid: Guid, success: bool)
    | OtherFrame
    | Lost
    | Recycle
    | Stop

  const Zero := Tally(0, 0, 0, 0)
  const Start := Wire(false, map[], [], Totals(Zero, Zero, Zero), 0)

  function Get(t: Totals, op: Opcode): Tally {
    match op
    case CreateLimit => t.create
    case DeleteLimit => t.delete
    case ReplaceLimit => t.replace
    case Other => Zero
  }

  function Put(t: Totals, op: Opcode, tally: Tally): Totals {
    match op
    case CreateLimit => t.(create := tally)
    case DeleteLimit => t.(delete := tally)
    case ReplaceLimit => t.(replace := tally)
    case Other => t
  }

  function Sent(t: Totals, op: Opcode): Totals { Put(t, op, Get(t, op).(sent := Get(t, op).sent + 1)) }

  function Finished(t: Totals, op: Opcode, success: bool): Totals {
    var old' := Get(t, op);
    Put(t, op, if success then old'.(success := old'.success + 1) else old'.(failure := old'.failure + 1))
  }

  function Abandoned(t: Totals, op: Opcode): Totals { Put(t, op, Get(t, op).(abandoned := Get(t, op).abandoned + 1)) }

  function InFlight(pending: map<Guid, Request>, op: Opcode): nat {
    |set g | g in pending && pending[g].opcode == op|
  }

  predicate Waiting(pending: map<Guid, Request>, i: nat) { exists g :: g in pending && pending[g].n == i }

  ghost function WaitingAt(pending: map<Guid, Request>, i: nat): (r: Request)
    requires Waiting(pending, i)
  {
    var g :| g in pending && pending[g].n == i;
    pending[g]
  }

  // ---- What can happen to a channel ----

  function Told(c: Channel, r: Reply): Channel { c.(replies := c.replies + [r]) }

  ghost function TellAll(channels: seq<Channel>, pending: map<Guid, Request>): (r: seq<Channel>)
    ensures |r| == |channels|
  {
    seq(|channels|, i requires 0 <= i < |channels| =>
      if Waiting(pending, i) then
        var r := WaitingAt(pending, i);
        Told(channels[i], TransportFailure(r.guid, r.opcode))
      else channels[i])
  }

  function CloseAll(channels: seq<Channel>, pending: map<Guid, Request>): (r: seq<Channel>)
    ensures |r| == |channels|
  {
    seq(|channels|, i requires 0 <= i < |channels| =>
      if Waiting(pending, i) then channels[i].(closed := true) else channels[i])
  }

  function FailedTotals(t: Totals, p: map<Guid, Request>): Totals {
    Totals(t.create.(failure := t.create.failure + InFlight(p, CreateLimit)),
           t.delete.(failure := t.delete.failure + InFlight(p, DeleteLimit)),
           t.replace.(failure := t.replace.failure + InFlight(p, ReplaceLimit)))
  }

  function DroppedTotals(t: Totals, p: map<Guid, Request>): Totals {
    Totals(t.create.(abandoned := t.create.abandoned + InFlight(p, CreateLimit)),
           t.delete.(abandoned := t.delete.abandoned + InFlight(p, DeleteLimit)),
           t.replace.(abandoned := t.replace.abandoned + InFlight(p, ReplaceLimit)))
  }

  // ---- Steps ----

  /** The end of a session by transport failure: everything in flight fails. */
  ghost function FailAll(s: Wire): Wire {
    Wire(false, map[], TellAll(s.channels, s.pending), FailedTotals(s.totals, s.pending), s.failedTotal + |s.pending|)
  }

  /** The end of a session by recycle or shutdown: everything in flight is forgotten. */
  function DropAll(s: Wire): Wire {
    Wire(false, map[], CloseAll(s.channels, s.pending), DroppedTotals(s.totals, s.pending), s.failedTotal)
  }

  /** A request that reuses the guid of one in flight takes its place; the older caller hears nothing. */
  function Displace(s: Wire, guid: Guid): Wire
    requires forall g :: g in s.pending ==> s.pending[g].n < |s.channels|
  {
    if guid in s.pending then
      var r := s.pending[guid];
      s.(pending := s.pending - {guid}, totals := Abandoned(s.totals, r.opcode),
         channels := s.channels[r.n := s.channels[r.n].(closed := true)])
    else s
  }

  function Accept(s: Wire, guid: Guid, op: Opcode): Wire {
    s.(pending := s.pending[guid := Request(|s.channels|, guid, op)],
       channels := s.channels + [Channel(guid, op, [], false)], totals := Sent(s.totals, op))
  }

  predicate Numbered(s: Wire) {
    forall g :: g in s.pending ==> s.pending[g].n < |s.channels|
  }

  function Resolve(s: Wire, guid: Guid, success: bool): Wire
    requires Numbered(s)
  {
    if guid in s.pending then
      var r := s.pending[guid];
      s.(pending := s.pending - {guid}, totals := Finished(s.totals, r.opcode, success),
         channels := s.channels[r.n := Told(s.channels[r.n], Response(success))])
    else s
  }

  ghost function Step(s: Wire, e: Event): Wire
    requires Numbered(s)
  {
    if !s.up then (if e.Connect? then s.(up := true, pending := map[]) else s) else
    match e
    case Connect => s
    case OtherFrame => s
    case Send(guid, op, written) =>
      var s1 := Accept(Displace(s, guid), guid, op);
      if written then s1 else FailAll(s1)
    case Answer(guid, success) => Resolve(s, guid, success)
    case Lost => FailAll(s)
    case Recycle => DropAll(s)
    case Stop => DropAll(s)
  }

  // ---- The invariant ----

  /** Each accepted send is in flight, answered once, or abandoned: exactly one of the three; replies and
      requests carry the guid and opcode of their own send. */
  ghost predicate Settled(s: Wire, i: nat)
    requires i < |s.channels|
  {
    var c := s.channels[i];
    && |c.replies| + (if c.closed then 1 else 0) + (if Waiting(s.pending, i) then 1 else 0) == 1
    && forall k :: 0 <= k < |c.replies| ==>
         c.replies[k].Response? || c.replies[k] == TransportFailure(c.guid, c.opcode)
  }

  ghost predicate GoodRequest(s: Wire, g: Guid)
    requires g in s.pending
  {
    var r := s.pending[g];
    r.n < |s.channels| && r.guid == g && s.channels[r.n].guid == g && s.channels[r.n].opcode == r.opcode
  }

  ghost predicate Balanced(s: Wire, op: Opcode) {
    var t := Get(s.totals, op);
    op != Other ==> t.sent == t.success + t.failure + InFlight(s.pending, op) + t.abandoned
  }

  ghost predicate Inv(s: Wire) {
    && (forall g :: g in s.pending ==> GoodRequest(s, g))
    && (forall g, h :: g in s.pending && h in s.pending && s.pending[g].n == s.pending[h].n ==> g == h)
    && (forall i :: 0 <= i < |s.channels| ==> Settled(s, i))
    && (!s.up ==> s.pending == map[])
  }

  ghost predicate Books(s: Wire) { forall op :: Balanced(s, op) }

  lemma CountIn(pending: map<Guid, Request>, guid: Guid, r: Request, op: Opcode)
    requires guid !in pending
    ensures InFlight(pending[guid := r], op) == InFlight(pending, op) + if r.opcode == op then 1 else 0
  {
    var more := pending[guid := r];
    var before, after := (set g | g in pending && pending[g].opcode == op), (set g | g in more && more[g].opcode == op);
    assert guid !in before;
    assert after == if r.opcode == op then before + {guid} else before;
  }

  lemma CountOut(pending: map<Guid, Request>, guid: Guid, op: Opcode)
    requires guid in pending
    ensures InFlight(pending, op) == InFlight(pending - {guid}, op) + if pending[guid].opcode == op then 1 else 0
  {
    var less := pending - {guid};
    assert less[guid := pending[guid]] == pending;
    CountIn(less, guid, pending[guid], op);
  }

  lemma CountNone(op: Opcode)
    ensures InFlight(map[], op) == 0
  {
  }

  lemma WaitingRemoved(pending: map<Guid, Request>, guid: Guid, i: nat)
    requires guid in pending
    requires forall g, h :: g in pending && h in pending && pending[g].n == pending[h].n ==> g == h
    ensures Waiting(pending - {guid}, i) <==> Waiting(pending, i) && i != pending[guid].n
  {
    var less := pending - {guid};
    if Waiting(pending, i) && i != pending[guid].n {
      var g :| g in pending && pending[g].n == i;
      assert g in less && less[g].n == i;
    }
  }

  // ---- Steps keep the invariant ----

  lemma FailAllKeeps(s: Wire)
    requires Inv(s)
    ensures Inv(FailAll(s))
  {
    var s' := FailAll(s);
    forall i | 0 <= i < |s'.channels| ensures Settled(s', i) {
      assert Settled(s, i);
      if Waiting(s.pending, i) { assert GoodRequest(s, WaitingAt(s.pending, i).guid); }
    }
  }

  lemma DropAllKeeps(s: Wire)
    requires Inv(s)
    ensures Inv(DropAll(s))
  {
    var s' := DropAll(s);
    forall i | 0 <= i < |s'.channels| ensures Settled(s', i) { assert Settled(s, i); }
  }

  /** Taking a request out of flight with one reply, or by closing its channel. */
  lemma ReleaseKeeps(s: Wire, guid: Guid, c: Channel, totals: Totals)
    requires Inv(s) && guid in s.pending
    requires var old' := s.channels[s.pending[guid].n];
             c == old'.(closed := true) || exists success :: c == Told(old', Response(success))
    ensures Inv(s.(pending := s.pending - {guid}, channels := s.channels[s.pending[guid].n := c], totals := totals))
  {
    var n := s.pending[guid].n;
    var s' := s.(pending := s.pending - {guid}, channels := s.channels[n := c], totals := totals);
    forall g | g in s'.pending ensures GoodRequest(s', g) { assert GoodRequest(s, g); }
    forall i | 0 <= i < |s'.channels| ensures Settled(s', i) {
      assert Settled(s, i);
      WaitingRemoved(s.pending, guid, i);
    }
    assert Waiting(s.pending, n);
    assert !s'.up ==> s'.pending == map[];
  }

  lemma AcceptKeeps(s: Wire, guid: Guid, op: Opcode)
    requires Inv(s) && guid !in s.pending && s.up
    ensures Inv(Accept(s, guid, op))
  {
    var s' := Accept(s, guid, op);
    forall g | g in s'.pending ensures GoodRequest(s', g) { if g != guid { assert GoodRequest(s, g); } }
    forall i | 0 <= i < |s'.channels| ensures Settled(s', i) {
      if i < |s.channels| {
        assert Settled(s, i);
        assert Waiting(s'.pending, i) <==> Waiting(s.pending, i) by {
          if Waiting(s.pending, i) {
            var g :| g in s.pending && s.pending[g].n == i;
            assert g in s'.pending && s'.pending[g].n == i;
          }
        }
      } else {
        assert s'.pending[guid].n == i;
      }
    }
  }

  lemma DisplaceKeeps(s: Wire, guid: Guid)
    requires Inv(s)
    ensures Inv(Displace(s, guid)) && guid !in Displace(s, guid).pending && Displace(s, guid).up == s.up
  {
    if guid in s.pending {
      assert GoodRequest(s, guid);
      ReleaseKeeps(s, guid, s.channels[s.pending[guid].n].(closed := true),
          Abandoned(s.totals, s.pending[guid].opcode));
    }
  }

  lemma StepKeeps(s: Wire, e: Event)
    requires Inv(s)
    ensures Numbered(s) && Inv(Step(s, e))
  {
    forall g | g in s.pending ensures s.pending[g].n < |s.channels| { assert GoodRequest(s, g); }
    assert Numbered(s);
    if !s.up {
      ReconnectKeeps(s);
    } else {
      hide Inv, FailAll, DropAll, Displace, Accept, GoodRequest;
      match e
      case Connect =>
      case OtherFrame =>
      case Send(guid, op, written) =>
        DisplaceKeeps(s, guid);
        AcceptKeeps(Displace(s, guid), guid, op);
        FailAllKeeps(Accept(Displace(s, guid), guid, op));
      case Answer(guid, success) =>
        if guid in s.pending {
          ReleaseKeeps(s, guid, Told(s.channels[s.pending[guid].n], Response(success)),
              Finished(s.totals, s.pending[guid].opcode, success));
        }
      case Lost => FailAllKeeps(s);
      case Recycle => DropAllKeeps(s);
      case Stop => DropAllKeeps(s);
    }
  }

  lemma ReconnectKeeps(s: Wire)
    requires Inv(s) && !s.up
    ensures s.(up := true, pending := map[]) == s.(up := true) && Inv(s.(up := true))
  {
    var s' := s.(up := true);
    forall i | 0 <= i < |s'.channels| ensures Settled(s', i) { assert Settled(s, i); }
  }

  // ---- Steps keep the books ----

  lemma EndKeepsBooks(s: Wire)
    requires Books(s)
    ensures Books(FailAll(s)) && Books(DropAll(s))
  {
    forall op ensures Balanced(FailAll(s), op) && Balanced(DropAll(s), op) {
      assert Balanced(s, op);
      CountNone(op);
    }
  }

  lemma SendKeepsBooks(s: Wire, guid: Guid, op: Opcode)
    requires Books(s) && Numbered(s)
    ensures Books(Accept(Displace(s, guid), guid, op))
  {
    hide InFlight;
    var s1 := Displace(s, guid);
    var s2 := Accept(s1, guid, op);
    forall x ensures Balanced(s2, x) {
      assert Balanced(s, x);
      if guid in s.pending { CountOut(s.pending, guid, x); }
      assert Balanced(s1, x);
      CountIn(s1.pending, guid, Request(|s1.channels|, guid, op), x);
    }
  }

  lemma ResolveKeepsBooks(s: Wire, guid: Guid, success: bool)
    requires Books(s) && Numbered(s)
    ensures Books(Resolve(s, guid, success))
  {
    hide InFlight;
    forall x ensures Balanced(Resolve(s, guid, success), x) {
      assert Balanced(s, x);
      if guid in s.pending { CountOut(s.pending, guid, x); }
    }
  }

  lemma StepKeepsBooks(s: Wire, e: Event)
    requires Inv(s) && Books(s) && Numbered(s)
    ensures Books(Step(s, e))
  {
    if !s.up {
      ReconnectKeeps(s);
      forall op ensures Balanced(s.(up := true), op) { assert Balanced(s, op); }
    } else {
      hide Inv, Books, FailAll, DropAll, Displace, Accept, Resolve;
      match e
      case Connect =>
      case OtherFrame =>
      case Send(guid, op, written) =>
        SendKeepsBooks(s, guid, op);
        EndKeepsBooks(Accept(Displace(s, guid), guid, op));
      case Answer(guid, success) => ResolveKeepsBooks(s, guid, success);
      case Lost => EndKeepsBooks(s);
      case Recycle => EndKeepsBooks(s);
      case Stop => EndKeepsBooks(s);
    }
  }
}
