/** Conservation of bars and their order, over every run of the bars task. */
module BarsSafety {
  import opened Results
  import opened Increasing
  import opened GatewayBars
  import opened BarsLoop

  function DroppedOf(dropped: map<(Symbol, Reason), nat>, sym: Symbol): nat {
    Count(dropped, (sym, DuplicateOrOld)) + Count(dropped, (sym, BadTimestamp)) + Count(dropped, (sym, BadOhlc)) +
    Count(dropped, (sym, NonFinite)) + Count(dropped, (sym, NegativeVolume)) + Count(dropped, (sym, FourPriceDoji)) +
    Count(dropped, (sym, NotClosedYet)) + Count(dropped, (sym, EmitFailed))
  }

  lemma DroppedBump(dropped: map<(Symbol, Reason), nat>, sym: Symbol, reason: Reason, other: Symbol)
    ensures DroppedOf(Bump(dropped, (sym, reason)), other) == DroppedOf(dropped, other) + if other == sym then 1 else 0
  {
    match reason
    case DuplicateOrOld => case BadTimestamp => case BadOhlc => case NonFinite =>
    case NegativeVolume => case FourPriceDoji => case NotClosedYet => case EmitFailed =>
  }

  /** Bars of a symbol that have left the loop, one way or the other. */
  function Settled(s: Loop, sym: Symbol): nat { Count(s.stats.emitted, sym) + DroppedOf(s.stats.dropped, sym) }

  // ---- The invariant ----

  /** Every received bar is emitted, dropped or buffered, and the buffered counter is the buffer's length. */
  ghost predicate Conserved(s: Loop, sym: Symbol) {
    && Count(s.stats.received, sym) == Settled(s, sym) + |Buffer(s, sym)|
    && Count(s.buffered, sym) == |Buffer(s, sym)|
    && (forall b :: b in Buffer(s, sym) ==> b.symbol == sym && b.origin == Live)
  }

  /** Emitted bars rise; the counter and both last-close maps describe them. */
  ghost predicate Described(s: Loop, sym: Symbol) {
    var sent := Of(sym, s.out);
    && Rising(sent)
    && Count(s.stats.emitted, sym) == |sent|
    && Lookup(s.last, sym) == Lookup(s.stats.lastClose, sym)
    && Lookup(s.last, sym) == if sent == [] then None else Some(sent[|sent| - 1].close)
  }

  ghost predicate Inv(s: Loop) {
    forall sym :: Conserved(s, sym) && Described(s, sym)
  }

  // ---- Delivery ----

  lemma DeliverSettles(cfg: Config, s: Loop, b: Bar, sym: Symbol)
    ensures var s' := Deliver(cfg, s, b);
            && Settled(s', sym) == Settled(s, sym) + (if b.symbol == sym then 1 else 0)
            && s'.pending == s.pending && s'.buffered == s.buffered
            && s'.stats.received == s.stats.received && s'.stats.ignored == s.stats.ignored
  {
    hide DroppedOf;
    var refusal := Refusal(cfg, s, b);
    if refusal.Some? { DroppedBump(s.stats.dropped, b.symbol, refusal.value, sym); }
  }

  lemma DeliverDescribed(cfg: Config, s: Loop, b: Bar, sym: Symbol)
    requires Described(s, sym)
    ensures Described(Deliver(cfg, s, b), sym)
  {
    OfOne(sym, s.out, b);
    if Refusal(cfg, s, b).None? && b.symbol == sym { RisingAppend(Of(sym, s.out), b); }
  }

  lemma {:induction false} DeliverAllSettles(cfg: Config, s: Loop, bars: seq<Bar>, x: Symbol, sym: Symbol)
    requires forall b :: b in bars ==> b.symbol == x
    ensures var s' := DeliverAll(cfg, s, bars);
            && Settled(s', sym) == Settled(s, sym) + (if x == sym then |bars| else 0)
            && s'.pending == s.pending && s'.buffered == s.buffered
            && s'.stats.received == s.stats.received && s'.stats.ignored == s.stats.ignored
  {
    hide Settled, Deliver;
    if bars != [] {
      DeliverAllSettles(cfg, s, bars[..|bars| - 1], x, sym);
      DeliverSettles(cfg, DeliverAll(cfg, s, bars[..|bars| - 1]), bars[|bars| - 1], sym);
      assert bars[|bars| - 1] in bars;
    }
  }

  lemma {:induction false} DeliverAllDescribed(cfg: Config, s: Loop, bars: seq<Bar>, sym: Symbol)
    requires Described(s, sym)
    ensures Described(DeliverAll(cfg, s, bars), sym)
  {
    hide Described, Deliver;
    if bars != [] {
      DeliverAllDescribed(cfg, s, bars[..|bars| - 1], sym);
      DeliverDescribed(cfg, DeliverAll(cfg, s, bars[..|bars| - 1]), bars[|bars| - 1], sym);
    }
  }

  // ---- Flush ----

  lemma {:induction false} SortMembers(bars: seq<Bar>, b: Bar)
    ensures b in SortByClose(bars) <==> b in bars
  {
    if bars != [] {
      var init, last := bars[..|bars| - 1], bars[|bars| - 1];
      assert bars == init + [last];
      SortMembers(init, b);
      InsertMembers(SortByClose(init), last, b);
    }
  }

  lemma {:induction false} InsertMembers(bars: seq<Bar>, x: Bar, b: Bar)
    ensures b in InsertByClose(bars, x) <==> b in bars || b == x
  {
    if bars != [] && bars[|bars| - 1].close > x.close {
      assert bars == bars[..|bars| - 1] + [bars[|bars| - 1]];
      InsertMembers(bars[..|bars| - 1], x, b);
    }
  }

  lemma SortKeeps(s: Loop)
    requires Inv(s)
    ensures Inv(s.(pending := SortAll(s.pending)))
  {
    hide Settled;
    var t := s.(pending := SortAll(s.pending));
    forall sym ensures Conserved(t, sym) && Described(t, sym) {
      assert Conserved(s, sym) && Described(s, sym);
      assert Settled(t, sym) == Settled(s, sym) by { SettledOfStats(t, s, sym); }
      forall b | b in Buffer(t, sym) ensures b.symbol == sym && b.origin == Live { SortMembers(Buffer(s, sym), b); }
    }
  }

  lemma SettledOfStats(t: Loop, s: Loop, sym: Symbol)
    requires t.stats == s.stats
    ensures Settled(t, sym) == Settled(s, sym)
  {
  }

  lemma FlushOneKeeps(cfg: Config, s: Loop, x: Symbol)
    requires Inv(s)
    ensures var s' := FlushOne(cfg, s, x); Inv(s') && s'.pending.Keys == s.pending.Keys - {x}
  {
    hide Settled, DeliverAll;
    var s1, bars := TakeOut(s, x), Buffer(s, x);
    var s' := DeliverAll(cfg, s1, bars);
    assert Conserved(s, x);
    DeliverAllSettles(cfg, s1, bars, x, x);
    forall sym ensures Conserved(s', sym) && Described(s', sym) {
      assert Conserved(s, sym) && Described(s, sym);
      SettledOfStats(s1, s, sym);
      DeliverAllSettles(cfg, s1, bars, x, sym);
      assert Described(s1, sym);
      DeliverAllDescribed(cfg, s1, bars, sym);
    }
  }

  lemma {:induction false} FlushAllKeeps(cfg: Config, s: Loop, syms: seq<Symbol>)
    requires Inv(s)
    ensures var s' := FlushAll(cfg, s, syms); Inv(s') && forall x :: x in s'.pending <==> x in s.pending && x !in syms
  {
    hide Inv, FlushOne;
    if syms != [] {
      var init, last := syms[..|syms| - 1], syms[|syms| - 1];
      FlushAllKeeps(cfg, s, init);
      FlushOneKeeps(cfg, FlushAll(cfg, s, init), last);
      assert syms == init + [last];
    }
  }

  lemma {:induction false} AscendingExact(keys: set<Symbol>)
    ensures Strict(Ascending(keys)) && forall x :: x in Ascending(keys) <==> x in keys
  {
    if exists x :: x in keys {
      var least := Least(keys);
      AscendingExact(keys - {least});
      var rest := Ascending(keys - {least});
      forall i | 0 <= i < |rest| ensures least < rest[i] { assert rest[i] in rest; }
    }
  }

  /** A flush empties every buffer and keeps the books. */
  lemma FlushKeeps(cfg: Config, s: Loop)
    requires Inv(s)
    ensures var s' := Flush(cfg, s); Inv(s') && s'.pending == map[]
  {
    hide Inv, FlushAll, Ascending;
    SortKeeps(s);
    AscendingExact(s.pending.Keys);
    FlushAllKeeps(cfg, s.(pending := SortAll(s.pending)), Ascending(s.pending.Keys));
    forall x ensures x !in Flush(cfg, s).pending {
      assert x in SortAll(s.pending) <==> x in Ascending(s.pending.Keys);
    }
  }

  // ---- Events ----

  lemma ReceiveAndHold(s: Loop, b: Bar)
    requires Inv(s) && b.origin == Live
    ensures Inv(Hold(s.(stats := s.stats.(received := Bump(s.stats.received, b.symbol))), b))
  {
    hide DroppedOf;
    var s0 := s.(stats := s.stats.(received := Bump(s.stats.received, b.symbol)));
    forall sym ensures Conserved(Hold(s0, b), sym) && Described(Hold(s0, b), sym) {
      assert Conserved(s, sym) && Described(s, sym);
    }
  }

  lemma ReceiveAndSettle(cfg: Config, s: Loop, b: Bar, reason: Reason)
    requires Inv(s)
    ensures var s0 := s.(stats := s.stats.(received := Bump(s.stats.received, b.symbol)));
            Inv(Drop(s0, b.symbol, reason)) && Inv(Deliver(cfg, s0, b))
  {
    hide DroppedOf, Deliver;
    var s0 := s.(stats := s.stats.(received := Bump(s.stats.received, b.symbol)));
    forall sym ensures Conserved(Drop(s0, b.symbol, reason), sym) && Described(Drop(s0, b.symbol, reason), sym) {
      assert Conserved(s, sym) && Described(s, sym);
      DroppedBump(s0.stats.dropped, b.symbol, reason, sym);
    }
    forall sym ensures Conserved(Deliver(cfg, s0, b), sym) && Described(Deliver(cfg, s0, b), sym) {
      assert Conserved(s, sym) && Described(s, sym);
      assert Described(s0, sym);
      DeliverSettles(cfg, s0, b, sym);
      DeliverDescribed(cfg, s0, b, sym);
    }
  }

  lemma StepKeeps(cfg: Config, s: Loop, e: Event)
    requires Inv(s)
    ensures Inv(Step(cfg, s, e))
  {
    match e
    case Ignore(sym, reason) =>
      hide DroppedOf;
      var s' := Step(cfg, s, e);
      forall sym ensures Conserved(s', sym) && Described(s', sym) { assert Conserved(s, sym) && Described(s, sym); }
    case Arrive(b, env) => OnBarKeeps(cfg, s, b, env);
  }

  lemma OnBarKeeps(cfg: Config, s: Loop, b: Bar, env: Env)
    requires Inv(s)
    ensures Inv(OnBar(cfg, s, b, env))
  {
    hide Inv, Flush, Drop, Deliver, Hold, Validate, Refusal;
    var s0 := s.(stats := s.stats.(received := Bump(s.stats.received, b.symbol)));
    if env.inGap && b.origin == Live {
      ReceiveAndHold(s, b);
      FlushKeeps(cfg, Hold(s0, b));
    } else {
      var reason := Validate(cfg, env.now, Lookup(s0.last, b.symbol), b);
      ReceiveAndSettle(cfg, s, b, if reason.Some? then reason.value else EmitFailed);
      if reason.None? { FlushKeeps(cfg, Deliver(cfg, s0, b)); }
    }
  }

  /** A bar that is held or emitted while everything is ready and the gap is not over empties every buffer; a
      rejected bar leaves them all alone. */
  lemma ReadyEmptiesBuffers(cfg: Config, s: Loop, b: Bar, env: Env)
    requires Inv(s)
    ensures var s' := OnBar(cfg, s, b, env);
            var held := env.inGap && b.origin == Live;
            var emitted := !held && Validate(cfg, env.now, Lookup(s.last, b.symbol), b).None?
                && Refusal(cfg, s, b).None?;
            && ((held || emitted) && env.ready && env.stillInGap ==> s'.pending == map[])
            && (!held && !emitted ==> s'.pending == s.pending && s'.out == s.out)
            && (held && !(env.ready && env.stillInGap) ==>
                  Buffer(s', b.symbol) == Buffer(s, b.symbol) + [b] && s'.out == s.out)
            && (emitted && !(env.ready && env.stillInGap) ==> s'.pending == s.pending && s'.out == s.out + [b])
  {
    hide Inv, Flush, Validate;
    var s0 := s.(stats := s.stats.(received := Bump(s.stats.received, b.symbol)));
    if env.inGap && b.origin == Live {
      ReceiveAndHold(s, b);
      FlushKeeps(cfg, Hold(s0, b));
    } else {
      ReceiveAndSettle(cfg, s, b, EmitFailed);
      FlushKeeps(cfg, Deliver(cfg, s0, b));
    }
  }

  /** For every run: per symbol, received = emitted + dropped + buffered, the buffered counter is exact, emitted
      close times strictly increase across history, gap and live bars, and both last-close maps agree. */
  lemma {:induction false} RunKeeps(cfg: Config, events: seq<Event>)
    ensures Inv(Run(cfg, events))
  {
    hide Step;
    if events == [] {
      assert forall sym :: Described(Start, sym) && Conserved(Start, sym);
    } else {
      hide Inv;
      RunKeeps(cfg, events[..|events| - 1]);
      StepKeeps(cfg, Run(cfg, events[..|events| - 1]), events[|events| - 1]);
    }
  }
}
