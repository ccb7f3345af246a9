/** The data quality report and what its imbalances mean. */
module DataReport {
  import opened Results
  import opened GatewayBars
  import opened BarsLoop
  import opened BarsSafety

  datatype Imbalance = Imbalance(symbol: Symbol, received: nat, emitted: nat, dropped: nat, ignored: nat,
                                 pending: nat, delta: int)

  function IgnoredOf(ignored: map<(Symbol, IgnoredReason), nat>, sym: Symbol): nat {
    Count(ignored, (sym, OldGeneration)) + Count(ignored, (sym, InactiveGuid)) +
    Count(ignored, (sym, UnknownGuid)) + Count(ignored, (sym, JsonParseError))
  }

  /** The line of the report for one received symbol, if its counters do not add up. */
  function Line(stats: Stats, buffered: map<Symbol, nat>, sym: Symbol): Option<Imbalance>
    requires sym in stats.received
  {
    var emitted, dropped := Count(stats.emitted, sym), DroppedOf(stats.dropped, sym);
    var ignored, pending := IgnoredOf(stats.ignored, sym), Count(buffered, sym);
    var rhs := emitted + dropped + ignored + pending;
    if stats.received[sym] == rhs then None
    else Some(Imbalance(sym, stats.received[sym], emitted, dropped, ignored, pending, stats.received[sym] - rhs))
  }

  /** After any run a received symbol is reported exactly when frames were ignored for it, and the reported
      difference is minus their number: ignored frames are never counted as received. */
  lemma ReportedExactly(cfg: Config, events: seq<Event>, sym: Symbol)
    requires sym in Run(cfg, events).stats.received
    ensures var s := Run(cfg, events);
            var line := Line(s.stats, s.buffered, sym);
            && (line.Some? <==> IgnoredOf(s.stats.ignored, sym) > 0)
            && (line.Some? ==> line.value.symbol == sym && line.value.delta == 0 - IgnoredOf(s.stats.ignored, sym))
  {
    hide DroppedOf, IgnoredOf, Described;
    RunKeeps(cfg, events);
    assert Conserved(Run(cfg, events), sym);
  }

  // ---- The columns ----

  /** The frames of a symbol that were set aside. */
  function Frames(sym: Symbol, events: seq<Event>): nat {
    if events == [] then 0 else
      var e := events[|events| - 1];
      Frames(sym, events[..|events| - 1]) + if e.Ignore? && e.symbol == sym then 1 else 0
  }

  lemma IgnoredBump(ignored: map<(Symbol, IgnoredReason), nat>, x: Symbol, reason: IgnoredReason, sym: Symbol)
    ensures IgnoredOf(Bump(ignored, (x, reason)), sym) == IgnoredOf(ignored, sym) + if x == sym then 1 else 0
  {
    match reason
    case OldGeneration => case InactiveGuid => case UnknownGuid => case JsonParseError =>
  }

  lemma {:induction false} DeliverAllTallies(cfg: Config, s: Loop, bars: seq<Bar>)
    ensures var t := DeliverAll(cfg, s, bars).stats;
            t.received == s.stats.received && t.ignored == s.stats.ignored
  {
    if bars != [] { DeliverAllTallies(cfg, s, bars[..|bars| - 1]); }
  }

  lemma {:induction false} FlushAllTallies(cfg: Config, s: Loop, syms: seq<Symbol>)
    ensures var t := FlushAll(cfg, s, syms).stats;
            t.received == s.stats.received && t.ignored == s.stats.ignored
  {
    if syms != [] {
      hide DeliverAll;
      var init, x := syms[..|syms| - 1], syms[|syms| - 1];
      FlushAllTallies(cfg, s, init);
      var mid := FlushAll(cfg, s, init);
      DeliverAllTallies(cfg, TakeOut(mid, x), Buffer(mid, x));
    }
  }

  lemma FlushTallies(cfg: Config, s: Loop)
    ensures var t := Flush(cfg, s).stats;
            t.received == s.stats.received && t.ignored == s.stats.ignored
  {
    hide FlushAll, Ascending;
    FlushAllTallies(cfg, s.(pending := SortAll(s.pending)), Ascending(s.pending.Keys));
  }

  lemma OnBarTallies(cfg: Config, s: Loop, b: Bar, env: Env)
    ensures var t := OnBar(cfg, s, b, env).stats;
            t.received == Bump(s.stats.received, b.symbol) && t.ignored == s.stats.ignored
  {
    hide Validate, Flush, Deliver, Refusal;
    var s0 := s.(stats := s.stats.(received := Bump(s.stats.received, b.symbol)));
    DeliverAllTallies(cfg, s0, [b]);
    assert [b][..0] == [] && DeliverAll(cfg, s0, []) == s0;
    FlushTallies(cfg, Hold(s0, b));
    FlushTallies(cfg, Deliver(cfg, s0, b));
  }

  /** After any run the received counter of a symbol is the number of its bars that reached the loop and its ignored
      counters add up to the number of its frames set aside. */
  lemma {:induction false} TalliesExact(cfg: Config, events: seq<Event>, sym: Symbol)
    ensures var stats := Run(cfg, events).stats;
            && Count(stats.received, sym) == |Of(sym, Fed(events))|
            && (sym in stats.received <==> Of(sym, Fed(events)) != [])
            && IgnoredOf(stats.ignored, sym) == Frames(sym, events)
  {
    if events == [] {
      EmptySums(sym);
    } else {
      hide IgnoredOf, OnBar;
      var init, e := events[..|events| - 1], events[|events| - 1];
      TalliesExact(cfg, init, sym);
      var s := Run(cfg, init);
      match e {
        case Arrive(b, env) =>
          OnBarTallies(cfg, s, b, env);
          OfOne(sym, Fed(init), b);
          assert Fed(events) == Fed(init) + [b];
        case Ignore(x, reason) =>
          IgnoredBump(s.stats.ignored, x, reason, sym);
          assert Fed(events) == Fed(init);
      }
    }
  }

  /** A symbol is reported if and only if one of its bars and one of its frames set aside are in the events. The
      columns are then the bars that reached the loop, the bars given to the consumer, the rest of those that are
      held no more, the frames set aside, and the bars still held. */
  lemma ColumnsExact(cfg: Config, events: seq<Event>, sym: Symbol)
    ensures var s := Run(cfg, events);
            var fed, sent, held := |Of(sym, Fed(events))|, |Of(sym, s.out)|, |Buffer(s, sym)|;
            && (sym in s.stats.received <==> fed > 0)
            && (fed > 0 ==>
                  var line := Line(s.stats, s.buffered, sym);
                  && (line.Some? <==> Frames(sym, events) > 0)
                  && (line.Some? ==>
                        var Imbalance(x, received, emitted, dropped, ignored, pending, delta) := line.value;
                        && x == sym && received == fed && emitted == sent && dropped == fed - sent - held
                        && ignored == Frames(sym, events) && pending == held && delta == 0 - ignored))
  {
    hide Run, DroppedOf, IgnoredOf;
    RunKeeps(cfg, events);
    TalliesExact(cfg, events, sym);
    assert Conserved(Run(cfg, events), sym) && Described(Run(cfg, events), sym);
  }

  // ---- An example ----

  /** One frame ignored and one bar received and emitted. */
  lemma IgnoredThenReceived(cfg: Config, b: Bar)
    requires cfg == Config(600, true, 2, None) && b.symbol == 0
    requires Validate(cfg, 600, None, b).None?
    ensures var s := Run(cfg, [Ignore(0, OldGeneration), Arrive(b, Env(false, false, false, 600))]);
            && s.stats == Stats(map[0 := 1], map[0 := 1], map[], map[(0, OldGeneration) := 1], map[0 := b.close])
            && s.buffered == map[] && s.out == [b]
  {
    hide Validate;
    var frame, arrival := Ignore(0, OldGeneration), Arrive(b, Env(false, false, false, 600));
    assert [frame][..0] == [] && [frame, arrival][..1] == [frame];
    var s1 := Step(cfg, Start, frame);
    assert Run(cfg, [frame]) == s1;
    assert s1.stats == Stats(map[], map[], map[], map[(0, OldGeneration) := 1], map[]) && s1.last == map[];
    assert Run(cfg, [frame, arrival]) == OnBar(cfg, s1, b, arrival.env);
    assert [] + [b] == [b];
  }

  lemma OneIgnored(b: Bar)
    ensures var stats := Stats(map[0 := 1], map[0 := 1], map[], map[(0, OldGeneration) := 1], map[0 := b.close]);
            Line(stats, map[], 0) == Some(Imbalance(0, 1, 1, 0, 1, 0, -1))
  {
    hide DroppedOf, IgnoredOf;
    EmptySums(0);
    var none: map<(Symbol, IgnoredReason), nat> := map[];
    IgnoredPut(none, (0, OldGeneration), 1, 0);
    assert none[(0, OldGeneration) := 1] == map[(0, OldGeneration) := 1];
  }

  /** In such a run the bar's symbol is reported, one short. */
  lemma IgnoredFrameIsReported()
    ensures var price := Finite(1.0);
            var b := Bar(0, 600, price, price, price, price, price, Live);
            var events := [Ignore(0, OldGeneration), Arrive(b, Env(false, false, false, 600))];
            var s := Run(Config(600, true, 2, None), events);
            0 in s.stats.received && Line(s.stats, s.buffered, 0) == Some(Imbalance(0, 1, 1, 0, 1, 0, -1))
  {
    hide Run, Line;
    var price := Finite(1.0);
    var b := Bar(0, 600, price, price, price, price, price, Live);
    IgnoredThenReceived(Config(600, true, 2, None), b);
    OneIgnored(b);
  }

  // ---- The loops ----

  lemma DroppedPut(dropped: map<(Symbol, Reason), nat>, k: (Symbol, Reason), n: nat, sym: Symbol)
    requires k !in dropped
    ensures DroppedOf(dropped[k := n], sym) == DroppedOf(dropped, sym) + if k.0 == sym then n else 0
  {
    var (x, reason) := k;
    match reason
    case DuplicateOrOld => case BadTimestamp => case BadOhlc => case NonFinite =>
    case NegativeVolume => case FourPriceDoji => case NotClosedYet => case EmitFailed =>
  }

  lemma IgnoredPut(ignored: map<(Symbol, IgnoredReason), nat>, k: (Symbol, IgnoredReason), n: nat, sym: Symbol)
    requires k !in ignored
    ensures IgnoredOf(ignored[k := n], sym) == IgnoredOf(ignored, sym) + if k.0 == sym then n else 0
  {
    var (x, reason) := k;
    match reason
    case OldGeneration => case InactiveGuid => case UnknownGuid => case JsonParseError =>
  }

  lemma EmptySums(sym: Symbol)
    ensures DroppedOf(map[], sym) == 0 && IgnoredOf(map[], sym) == 0
  {
  }

  method SumDropped(dropped: map<(Symbol, Reason), nat>, sym: Symbol) returns (sum: nat)
    ensures sum == DroppedOf(dropped, sym)
  {
    hide DroppedOf;
    EmptySums(sym);
    sum := 0;
    var rest := dropped.Keys;
    ghost var done: map<(Symbol, Reason), nat> := map[];
    while exists k :: k in rest
      invariant rest <= dropped.Keys && done.Keys == dropped.Keys - rest
      invariant forall k :: k in done ==> done[k] == dropped[k]
      invariant sum == DroppedOf(done, sym)
      decreases rest
    {
      var k :| k in rest;
      if k.0 == sym { sum := sum + dropped[k]; }
      DroppedPut(done, k, dropped[k], sym);
      done := done[k := dropped[k]];
      rest := rest - {k};
    }
    assert done == dropped;
  }

  method SumIgnored(ignored: map<(Symbol, IgnoredReason), nat>, sym: Symbol) returns (sum: nat)
    ensures sum == IgnoredOf(ignored, sym)
  {
    hide IgnoredOf;
    EmptySums(sym);
    sum := 0;
    var rest := ignored.Keys;
    ghost var done: map<(Symbol, IgnoredReason), nat> := map[];
    while exists k :: k in rest
      invariant rest <= ignored.Keys && done.Keys == ignored.Keys - rest
      invariant forall k :: k in done ==> done[k] == ignored[k]
      invariant sum == IgnoredOf(done, sym)
      decreases rest
    {
      var k :| k in rest;
      if k.0 == sym { sum := sum + ignored[k]; }
      IgnoredPut(done, k, ignored[k], sym);
      done := done[k := ignored[k]];
      rest := rest - {k};
    }
    assert done == ignored;
  }

  /** Builds the imbalances, one line at most for each received symbol, in no particular order. */
  method BuildDataReport(stats: Stats, buffered: map<Symbol, nat>) returns (lines: seq<Imbalance>)
    ensures forall x :: x in lines <==> x.symbol in stats.received && Line(stats, buffered, x.symbol) == Some(x)
    ensures forall i, j :: 0 <= i < j < |lines| ==> lines[i].symbol != lines[j].symbol
  {
    hide DroppedOf, IgnoredOf;
    lines := [];
    var rest := stats.received.Keys;
    while exists k :: k in rest
      invariant rest <= stats.received.Keys
      invariant forall x :: x in lines <==>
        x.symbol in stats.received && x.symbol !in rest && Line(stats, buffered, x.symbol) == Some(x)
      invariant forall i, j :: 0 <= i < j < |lines| ==> lines[i].symbol != lines[j].symbol
      decreases rest
    {
      var sym :| sym in rest;
      var received: int := stats.received[sym];
      var emitted := Count(stats.emitted, sym);
      var dropped := SumDropped(stats.dropped, sym);
      var ignored := SumIgnored(stats.ignored, sym);
      var pending := Count(buffered, sym);
      var rhs := emitted + dropped + ignored + pending;
      if received != rhs {
        forall i | 0 <= i < |lines| ensures lines[i].symbol != sym { assert lines[i] in lines; }
        lines := lines + [Imbalance(sym, received, emitted, dropped, ignored, pending, received - rhs)];
      }
      rest := rest - {sym};
    }
  }
}
