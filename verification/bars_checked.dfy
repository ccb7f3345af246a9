/** Which emitted bars the validator has seen. */
module BarsChecked {
  import opened Results
  import opened Increasing
  import opened GatewayBars
  import opened BarsLoop
  import opened BarsSafety
  import opened BarsFlow
  import R = RouterModel

  /** What a valid bar is: closed, on the grid, its extremes around its open and close. */
  predicate WellFormed(cfg: Config, now: int, b: Bar) {
    && (cfg.tf > 0 ==> b.close % cfg.tf == 0)
    && b.close <= now + cfg.grace
    && b.o.Finite? && b.h.Finite? && b.l.Finite? && b.c.Finite?
    && b.l.value <= b.o.value <= b.h.value && b.l.value <= b.c.value <= b.h.value
    && !Negative(b.v)
    && (b.h.value == b.l.value ==> cfg.allowDoji)
  }

  /** The validator accepts exactly the well-formed bars newer than the last emitted one. */
  lemma ValidateExact(cfg: Config, now: int, last: Option<int>, b: Bar)
    ensures Validate(cfg, now, last, b).None? <==> WellFormed(cfg, now, b) && (last.Some? ==> b.close > last.value)
  {
  }

  /** What each reason says of a bar, taken alone. */
  predicate Deserves(cfg: Config, now: int, last: Option<int>, b: Bar, reason: Reason) {
    match reason
    case DuplicateOrOld => last.Some? && last.value >= b.close
    case BadTimestamp => cfg.tf > 0 && b.close % cfg.tf != 0
    case NotClosedYet => b.close - now > cfg.grace
    case NonFinite => !(b.o.Finite? && b.h.Finite? && b.l.Finite? && b.c.Finite?)
    case BadOhlc =>
      b.o.Finite? && b.h.Finite? && b.l.Finite? && b.c.Finite?
      && !(b.l.value <= b.o.value <= b.h.value && b.l.value <= b.c.value <= b.h.value)
    case NegativeVolume => b.v == MinusInfinity || (b.v.Finite? && b.v.value < 0.0)
    case FourPriceDoji => !cfg.allowDoji && b.h.Finite? && b.l.Finite? && b.h.value == b.l.value
    case EmitFailed => false
  }

  /** The order in which the reasons are looked for. */
  function Rank(reason: Reason): nat {
    match reason
    case DuplicateOrOld => 0
    case BadTimestamp => 1
    case NotClosedYet => 2
    case NonFinite => 3
    case BadOhlc => 4
    case NegativeVolume => 5
    case FourPriceDoji => 6
    case EmitFailed => 7
  }

  /** A bar is rejected for a reason if and only if it deserves that one and none that is looked for before. */
  lemma ReasonExact(cfg: Config, now: int, last: Option<int>, b: Bar, reason: Reason)
    ensures Validate(cfg, now, last, b) == Some(reason) <==>
      Deserves(cfg, now, last, b, reason)
      && forall r: Reason :: Deserves(cfg, now, last, b, r) ==> Rank(reason) <= Rank(r)
  {
    var found := Validate(cfg, now, last, b);
    if found.Some? {
      FirstDeserved(cfg, now, last, b, found.value);
      if Rank(found.value) == Rank(reason) { SameRank(found.value, reason); }
    } else {
      NoneDeserved(cfg, now, last, b, reason);
    }
  }

  lemma SameRank(r: Reason, q: Reason)
    requires Rank(r) == Rank(q)
    ensures r == q
  {
  }

  lemma FirstDeserved(cfg: Config, now: int, last: Option<int>, b: Bar, found: Reason)
    requires Validate(cfg, now, last, b) == Some(found)
    ensures Deserves(cfg, now, last, b, found)
    ensures forall r: Reason :: Deserves(cfg, now, last, b, r) ==> Rank(found) <= Rank(r)
  {
    forall r: Reason | Deserves(cfg, now, last, b, r)
      ensures Rank(found) <= Rank(r)
    {
      match r
      case DuplicateOrOld => case BadTimestamp => case NotClosedYet => case NonFinite =>
      case BadOhlc => case NegativeVolume => case FourPriceDoji => case EmitFailed =>
    }
  }

  /** What a bar that is not held comes to: exactly one drop, under the first reason it deserves or as failed because
      the consumer is gone, or its emission. */
  lemma DropExact(cfg: Config, s: Loop, b: Bar, env: Env)
    requires Inv(s) && !(env.inGap && b.origin == Live)
    ensures var last := Lookup(s.last, b.symbol);
            var gone := cfg.room.Some? && |s.out| >= cfg.room.value;
            var s' := OnBar(cfg, s, b, env.(ready := false));
            if exists r: Reason :: Deserves(cfg, env.now, last, b, r) then
              exists r: Reason :: Validate(cfg, env.now, last, b) == Some(r) && s'.out == s.out
                && s'.stats.dropped == Bump(s.stats.dropped, (b.symbol, r)) && s'.stats.emitted == s.stats.emitted
            else if gone then
              s'.out == s.out && s'.stats.dropped == Bump(s.stats.dropped, (b.symbol, EmitFailed))
            else
              s'.out == s.out + [b] && s'.stats.dropped == s.stats.dropped
              && s'.stats.emitted == Bump(s.stats.emitted, b.symbol)
  {
    var last := Lookup(s.last, b.symbol);
    hide Validate, Deserves, Inv;
    var found := Validate(cfg, env.now, last, b);
    if found.Some? {
      ReasonExact(cfg, env.now, last, b, found.value);
    } else {
      forall r: Reason ensures !Deserves(cfg, env.now, last, b, r) { NoneDeserved(cfg, env.now, last, b, r); }
      ValidateExact(cfg, env.now, last, b);
    }
  }

  lemma NoneDeserved(cfg: Config, now: int, last: Option<int>, b: Bar, r: Reason)
    requires Validate(cfg, now, last, b).None?
    ensures !Deserves(cfg, now, last, b, r)
  {
  }

  ghost predicate ArrivedWellFormed(cfg: Config, events: seq<Event>, b: Bar) {
    exists i :: 0 <= i < |events| && events[i].Arrive? && events[i].bar == b && WellFormed(cfg, events[i].env.now, b)
  }

  ghost predicate ArrivedInGap(events: seq<Event>, b: Bar) {
    exists i :: 0 <= i < |events| && events[i].Arrive? && events[i].bar == b && events[i].env.inGap && b.origin == Live
  }

  ghost predicate Known(cfg: Config, events: seq<Event>, s: Loop) {
    && (forall b :: b in s.out ==> ArrivedWellFormed(cfg, events, b) || ArrivedInGap(events, b))
    && (forall sym, b :: b in Buffer(s, sym) ==> ArrivedInGap(events, b))
  }

  lemma {:induction false} DeliverAllMembers(cfg: Config, s: Loop, bars: seq<Bar>)
    ensures var s' := DeliverAll(cfg, s, bars);
            s'.pending == s.pending && forall b :: b in s'.out ==> b in s.out || b in bars
  {
    if bars != [] {
      DeliverAllMembers(cfg, s, bars[..|bars| - 1]);
      assert bars == bars[..|bars| - 1] + [bars[|bars| - 1]];
    }
  }

  lemma {:induction false} FlushAllKnown(cfg: Config, events: seq<Event>, s: Loop, syms: seq<Symbol>)
    requires Known(cfg, events, s)
    ensures Known(cfg, events, FlushAll(cfg, s, syms))
  {
    if syms != [] {
      hide DeliverAll, ArrivedWellFormed, ArrivedInGap;
      var mid, x := FlushAll(cfg, s, syms[..|syms| - 1]), syms[|syms| - 1];
      FlushAllKnown(cfg, events, s, syms[..|syms| - 1]);
      DeliverAllMembers(cfg, TakeOut(mid, x), Buffer(mid, x));
      var s' := FlushOne(cfg, mid, x);
      assert forall sym, b :: b in Buffer(s', sym) ==> b in Buffer(mid, sym);
    }
  }

  lemma FlushKnown(cfg: Config, events: seq<Event>, s: Loop)
    requires Known(cfg, events, s)
    ensures Known(cfg, events, Flush(cfg, s))
  {
    hide ArrivedWellFormed, ArrivedInGap;
    var t := s.(pending := SortAll(s.pending));
    forall sym, b | b in Buffer(t, sym) ensures b in Buffer(s, sym) { SortMembers(Buffer(s, sym), b); }
    FlushAllKnown(cfg, events, t, Ascending(s.pending.Keys));
  }

  lemma KnownLonger(cfg: Config, events: seq<Event>, e: Event, s: Loop)
    requires Known(cfg, events, s)
    ensures Known(cfg, events + [e], s)
  {
    var more := events + [e];
    assert forall i {:trigger events[i]} :: 0 <= i < |events| ==> events[i] == more[i];
    forall b | ArrivedInGap(events, b) ensures ArrivedInGap(more, b) {}
    forall b | ArrivedWellFormed(cfg, events, b) ensures ArrivedWellFormed(cfg, more, b) {}
  }

  lemma OnBarKnown(cfg: Config, events: seq<Event>, s: Loop, b: Bar, env: Env)
    requires Known(cfg, events, s) && events != [] && events[|events| - 1] == Arrive(b, env)
    ensures Known(cfg, events, OnBar(cfg, s, b, env))
  {
    hide Flush, Validate, WellFormed;
    var s0 := s.(stats := s.stats.(received := Bump(s.stats.received, b.symbol)));
    KnownCounters(cfg, events, s, s0);
    if env.inGap && b.origin == Live {
      assert ArrivedInGap(events, b);
      KnownHeld(cfg, events, s0, b);
      FlushKnown(cfg, events, Hold(s0, b));
    } else if Validate(cfg, env.now, Lookup(s0.last, b.symbol), b).None? {
      ValidateExact(cfg, env.now, Lookup(s0.last, b.symbol), b);
      assert ArrivedWellFormed(cfg, events, b);
      KnownDelivered(cfg, events, s0, b);
      FlushKnown(cfg, events, Deliver(cfg, s0, b));
    } else {
      KnownCounters(cfg, events, s0, OnBar(cfg, s, b, env));
    }
  }

  lemma KnownHeld(cfg: Config, events: seq<Event>, s: Loop, b: Bar)
    requires Known(cfg, events, s) && ArrivedInGap(events, b)
    ensures Known(cfg, events, Hold(s, b))
  {
    hide ArrivedWellFormed, ArrivedInGap;
    assert forall sym, x :: x in Buffer(Hold(s, b), sym) ==> x in Buffer(s, sym) || x == b;
  }

  lemma KnownDelivered(cfg: Config, events: seq<Event>, s: Loop, b: Bar)
    requires Known(cfg, events, s) && ArrivedWellFormed(cfg, events, b)
    ensures Known(cfg, events, Deliver(cfg, s, b))
  {
    hide ArrivedWellFormed, ArrivedInGap;
    assert forall sym :: Buffer(Deliver(cfg, s, b), sym) == Buffer(s, sym);
  }

  /** In every run, an emitted bar was well formed when it arrived, unless it is a live bar that arrived in a gap. */
  lemma {:induction false} EmittedWereChecked(cfg: Config, events: seq<Event>)
    ensures Known(cfg, events, Run(cfg, events))
  {
    if events != [] {
      hide Known, OnBar;
      var init, e := events[..|events| - 1], events[|events| - 1];
      EmittedWereChecked(cfg, init);
      assert events == init + [e];
      KnownLonger(cfg, init, e, Run(cfg, init));
      match e
      case Arrive(b, env) => OnBarKnown(cfg, events, Run(cfg, init), b, env);
      case Ignore(_, _) => KnownCounters(cfg, events, Run(cfg, init), Run(cfg, events));
    }
  }

  lemma KnownCounters(cfg: Config, events: seq<Event>, s: Loop, t: Loop)
    requires Known(cfg, events, s) && t.out == s.out && t.pending == s.pending
    ensures Known(cfg, events, t)
  {
    assert forall sym :: Buffer(t, sym) == Buffer(s, sym);
  }

  /** Every bar that waits in a buffer and closes after its symbol's last emitted bar is well formed at `now`. */
  ghost predicate CleanBuffers(cfg: Config, now: int, s: Loop) {
    forall sym, b :: b in Buffer(s, sym) && !Old(b, Lookup(s.last, sym)) ==> WellFormed(cfg, now, b)
  }

  lemma BacklogClean(cfg: Config, now: int, s: Loop, feed: seq<Bar>)
    requires BuffersRise(s, feed)
    ensures CleanBuffers(cfg, now, s) <==> forall b :: b in WholeBacklog(s) ==> WellFormed(cfg, now, b)
  {
    hide WellFormed, Old, BuffersRise;
    var syms := Ascending(s.pending.Keys);
    AscendingExact(s.pending.Keys);
    forall b
      ensures b in WholeBacklog(s) <==> exists sym :: sym in syms && b in Buffer(s, sym) && !Old(b, Lookup(s.last, sym))
    {
      BacklogExact(s, feed, syms, b);
    }
    if forall b :: b in WholeBacklog(s) ==> WellFormed(cfg, now, b) {
      forall sym, b | b in Buffer(s, sym) && !Old(b, Lookup(s.last, sym)) ensures WellFormed(cfg, now, b) {
        assert sym in syms;
        assert b in WholeBacklog(s);
      }
    }
  }

  /** While the consumer has room for the backlog, a flush after any run fed in order emits only well-formed bars if
      and only if every buffered bar that is not old for its symbol is well formed, which can be seen before. */
  lemma FlushValidExactly(cfg: Config, events: seq<Event>, now: int)
    requires FedInOrder(events)
    requires var s := Run(cfg, events); cfg.room.None? || |s.out| + |WholeBacklog(s)| <= cfg.room.value
    ensures var s := Run(cfg, events); var s' := Flush(cfg, s);
            && s.out <= s'.out
            && ((forall b :: b in s'.out[|s.out|..] ==> WellFormed(cfg, now, b)) <==> CleanBuffers(cfg, now, s))
  {
    hide Flush, WellFormed, CleanBuffers, WholeBacklog, BuffersRise, Inv;
    var s := Run(cfg, events);
    FlushExact(cfg, events);
    RunBuffersRise(cfg, events);
    BacklogClean(cfg, now, s, Fed(events));
    assert Taken(cfg, s, WholeBacklog(s)) == WholeBacklog(s);
    assert Flush(cfg, s).out[|s.out|..] == WholeBacklog(s);
  }

  /** The same inside an iteration of the bars task that ends a gap, whatever the router received. */
  lemma GapEndsCleanExactly(tf: int, msgs: seq<R.Message>, cfg: Config, events: seq<Event>, b: Bar, env: Env, now: int)
    requires Fed(events + [Arrive(b, env)]) <= R.Life(tf, msgs).sent
    requires env.ready && env.stillInGap && Proceeds(cfg, Run(cfg, events), b, env)
    requires var mid := Run(cfg, events + [Arrive(b, env.(ready := false))]);
             cfg.room.None? || |mid.out| + |WholeBacklog(mid)| <= cfg.room.value
    ensures var s, mid := Run(cfg, events + [Arrive(b, env)]), Run(cfg, events + [Arrive(b, env.(ready := false))]);
            && mid.out <= s.out
            && ((forall x :: x in s.out[|mid.out|..] ==> WellFormed(cfg, now, x)) <==> CleanBuffers(cfg, now, mid))
  {
    hide Run, WellFormed, CleanBuffers, WholeBacklog, BuffersRise, Inv, Proceeds, FedInOrder;
    var quiet := events + [Arrive(b, env.(ready := false))];
    var s, mid := Run(cfg, events + [Arrive(b, env)]), Run(cfg, quiet);
    assert (events + [Arrive(b, env)])[..|events|] == events && quiet[..|events|] == events;
    assert Fed(quiet) == Fed(events) + [b] == Fed(events + [Arrive(b, env)]);
    RouterFeedsInOrder(tf, msgs, cfg, quiet);
    IterationFlushes(tf, msgs, cfg, events, b, env);
    BacklogClean(cfg, now, mid, Fed(quiet));
    assert Taken(cfg, mid, WholeBacklog(mid)) == WholeBacklog(mid);
    assert s.out[|mid.out|..] == WholeBacklog(mid);
  }

  lemma FlushOfOne(cfg: Config, s: Loop, b: Bar)
    requires cfg.room.None? && s.pending == map[b.symbol := [b]] && s.out == [] && s.last == map[]
    ensures Flush(cfg, s).out == [b]
  {
    hide Ascending, Deliver, SortAll;
    var x := b.symbol;
    AscendingExact({x});
    assert Strict([x]) && forall y :: y in Ascending({x}) <==> y in [x];
    Unique(Ascending({x}), [x]);
    SortOfOne(s.pending, b);
    assert s.pending.Keys == {x};
    assert [x][..0] == [] && FlushAll(cfg, s, []) == s;
    assert FlushAll(cfg, s, [x]) == FlushOne(cfg, s, x);
    assert [b][..0] == [] && DeliverAll(cfg, TakeOut(s, x), []) == TakeOut(s, x);
    DeliverFirst(cfg, TakeOut(s, x), b);
  }

  lemma SortOfOne(pending: map<Symbol, seq<Bar>>, b: Bar)
    requires pending == map[b.symbol := [b]]
    ensures SortAll(pending) == pending
  {
    assert [b][..0] == [] && SortByClose([]) == [];
    assert SortByClose([b]) == [b];
  }

  lemma DeliverFirst(cfg: Config, s: Loop, b: Bar)
    requires cfg.room.None? && s.out == [] && s.last == map[]
    ensures Deliver(cfg, s, b).out == [b]
  {
  }

  /** The exception is real: any live bar that arrives first, in a gap that is about to end, is emitted whether
      well formed or not. */
  lemma FlushSkipsValidation(cfg: Config, b: Bar, now: int)
    requires cfg.room.None? && b.origin == Live
    ensures Run(cfg, [Arrive(b, Env(true, true, true, now))]).out == [b]
  {
    hide Flush;
    var events := [Arrive(b, Env(true, true, true, now))];
    assert events[..0] == [] && Run(cfg, []) == Start;
    var s := Hold(Start.(stats := Start.stats.(received := Bump(Start.stats.received, b.symbol))), b);
    assert [] + [b] == [b] && s.pending == map[b.symbol := [b]];
    FlushOfOne(cfg, s, b);
  }

  /** For example a bar that closes off the ten-minute grid. */
  lemma OffGridBarEmitted()
    ensures var cfg, price := Config(600, true, 2, None), Finite(1.0);
            var b := Bar(0, 601, price, price, price, price, price, Live);
            Run(cfg, [Arrive(b, Env(true, true, true, 1000))]).out == [b] && !WellFormed(cfg, 1000, b)
  {
    var cfg, price := Config(600, true, 2, None), Finite(1.0);
    FlushSkipsValidation(cfg, Bar(0, 601, price, price, price, price, price, Live), 1000);
  }
}
