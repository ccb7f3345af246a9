/** The router feeding the bars task: what its ordering is worth to the gap buffers. */
module BarsFlow {
  import opened Results
  import opened Increasing
  import opened GatewayBars
  import opened BarsLoop
  import opened BarsSafety
  import R = RouterModel

  // ---- Buffers hold received bars, in order ----

  ghost predicate FedInOrder(events: seq<Event>) {
    forall sym :: Rising(LiveOf(sym, Fed(events)))
  }

  /** Each buffer rises and holds only live bars that were received. */
  ghost predicate BufferOf(s: Loop, feed: seq<Bar>, sym: Symbol) {
    && Rising(Buffer(s, sym))
    && forall b :: b in Buffer(s, sym) ==> b in LiveOf(sym, feed)
  }

  ghost predicate BuffersRise(s: Loop, feed: seq<Bar>) {
    forall sym :: BufferOf(s, feed, sym)
  }

  lemma LastOfRising(bars: seq<Bar>, b: Bar)
    requires Rising(bars + [b])
    ensures Rising(bars) && forall x :: x in bars ==> x.close < b.close
  {
    var more := bars + [b];
    assert more[|bars|] == b;
    assert forall i {:trigger bars[i]} :: 0 <= i < |bars| ==> more[i] == bars[i];
  }

  lemma HoldRises(s: Loop, feed: seq<Bar>, b: Bar)
    requires BuffersRise(s, feed) && b.origin == Live
    requires forall sym :: Rising(LiveOf(sym, feed + [b]))
    ensures BuffersRise(Hold(s, b), feed + [b])
  {
    forall sym ensures BufferOf(Hold(s, b), feed + [b], sym) {
      assert BufferOf(s, feed, sym);
      OfOne(sym, feed, b);
      if sym == b.symbol {
        LastOfRising(LiveOf(sym, feed), b);
        assert forall x :: x in Buffer(s, sym) ==> x.close < b.close;
      }
    }
  }

  lemma MoreFeed(s: Loop, feed: seq<Bar>, b: Bar)
    requires BuffersRise(s, feed)
    ensures BuffersRise(s, feed + [b])
  {
    forall sym ensures BufferOf(s, feed + [b], sym) {
      assert BufferOf(s, feed, sym);
      OfOne(sym, feed, b);
    }
  }

  lemma SameBuffers(s: Loop, t: Loop, feed: seq<Bar>)
    requires BuffersRise(s, feed) && (t.pending == s.pending || t.pending == map[])
    ensures BuffersRise(t, feed)
  {
    forall sym ensures BufferOf(t, feed, sym) { assert BufferOf(s, feed, sym); }
  }

  lemma DeliverLeavesBuffers(cfg: Config, s: Loop, b: Bar)
    ensures Deliver(cfg, s, b).pending == s.pending
  {
  }

  lemma OnBarRises(cfg: Config, s: Loop, feed: seq<Bar>, b: Bar, env: Env)
    requires Inv(s) && BuffersRise(s, feed) && forall sym :: Rising(LiveOf(sym, feed + [b]))
    ensures BuffersRise(OnBar(cfg, s, b, env), feed + [b])
  {
    hide Inv, BuffersRise, Flush, Deliver, Hold, Validate, Refusal;
    var s0 := s.(stats := s.stats.(received := Bump(s.stats.received, b.symbol)));
    var s' := OnBar(cfg, s, b, env);
    SameBuffers(s, s0, feed);
    if env.inGap && b.origin == Live {
      ReceiveAndHold(s, b);
      HoldRises(s0, feed, b);
      FlushKeeps(cfg, Hold(s0, b));
      SameBuffers(Hold(s0, b), s', feed + [b]);
    } else {
      MoreFeed(s0, feed, b);
      ReceiveAndSettle(cfg, s, b, EmitFailed);
      DeliverLeavesBuffers(cfg, s0, b);
      FlushKeeps(cfg, Deliver(cfg, s0, b));
      SameBuffers(s0, s', feed + [b]);
    }
  }

  lemma {:induction false} RunBuffersRise(cfg: Config, events: seq<Event>)
    requires FedInOrder(events)
    ensures BuffersRise(Run(cfg, events), Fed(events))
  {
    hide OnBar, BuffersRise, Rising;
    if events == [] {
      NoBuffers([]);
    } else {
      var init, e := events[..|events| - 1], events[|events| - 1];
      FedBefore(events);
      RunBuffersRise(cfg, init);
      RunKeeps(cfg, init);
      match e
      case Ignore(sym, reason) =>
        assert Fed(events) == Fed(init);
        SameBuffers(Run(cfg, init), Run(cfg, events), Fed(init));
      case Arrive(b, env) =>
        assert Fed(events) == Fed(init) + [b];
        OnBarRises(cfg, Run(cfg, init), Fed(init), b, env);
    }
  }

  lemma NoBuffers(feed: seq<Bar>)
    ensures BuffersRise(Start, feed)
  {
    assert forall sym :: BufferOf(Start, feed, sym);
  }

  lemma FedBefore(events: seq<Event>)
    requires events != [] && FedInOrder(events)
    ensures FedInOrder(events[..|events| - 1])
  {
    var init, e := events[..|events| - 1], events[|events| - 1];
    forall sym ensures Rising(LiveOf(sym, Fed(init))) {
      assert Rising(LiveOf(sym, Fed(events)));
      if e.Arrive? {
        OfOne(sym, Fed(init), e.bar);
        if e.bar.symbol == sym && e.bar.origin == Live { LastOfRising(LiveOf(sym, Fed(init)), e.bar); }
      } else {
        assert Fed(events) == Fed(init);
      }
    }
  }

  // ---- The sort changes nothing ----

  lemma {:induction false} SortedAlready(bars: seq<Bar>)
    requires Rising(bars)
    ensures SortByClose(bars) == bars
  {
    if bars != [] {
      var init, last := bars[..|bars| - 1], bars[|bars| - 1];
      SortedAlready(init);
      assert bars == init + [last];
    }
  }

  /** Whatever the interleaving, a buffer fed by the router never needs its sort. */
  lemma SortIsIdentity(s: Loop, feed: seq<Bar>)
    requires BuffersRise(s, feed)
    ensures SortAll(s.pending) == s.pending
  {
    forall sym | sym in s.pending ensures SortByClose(s.pending[sym]) == s.pending[sym] {
      assert BufferOf(s, feed, sym);
      SortedAlready(Buffer(s, sym));
    }
  }

  // ---- What a flush emits ----

  predicate Old(b: Bar, last: Option<int>) { last.Some? && b.close <= last.value }

  /** The length of the longest prefix that closes no later than `last`. */
  function Stale(bars: seq<Bar>, last: Option<int>): (n: nat)
    ensures n <= |bars|
  {
    if bars == [] then 0 else
      var n := Stale(bars[..|bars| - 1], last);
      if n == |bars| - 1 && Old(bars[n], last) then n + 1 else n
  }

  /** What is left of `bars` after everything up to `last`. */
  function Newer(bars: seq<Bar>, last: Option<int>): (r: seq<Bar>) { bars[Stale(bars, last)..] }

  lemma {:induction false} StaleExact(bars: seq<Bar>, last: Option<int>)
    ensures var n := Stale(bars, last);
            && (forall i :: 0 <= i < n ==> Old(bars[i], last))
            && (n < |bars| ==> !Old(bars[n], last))
  {
    if bars != [] {
      var init := bars[..|bars| - 1];
      StaleExact(init, last);
      assert forall i {:trigger bars[i]} :: 0 <= i < |init| ==> bars[i] == init[i];
    }
  }

  /** In a rising buffer the suffix holds exactly the bars that close after `last`. */
  lemma NewerExact(bars: seq<Bar>, last: Option<int>)
    requires Rising(bars)
    ensures forall b :: b in Newer(bars, last) <==> b in bars && !Old(b, last)
  {
    StaleExact(bars, last);
    var n := Stale(bars, last);
    forall i | n <= i < |bars| ensures !Old(bars[i], last) {}
    assert forall b :: b in bars[..n] ==> Old(b, last);
    assert bars == bars[..n] + bars[n..];
    forall b | b in bars[n..] ensures !Old(b, last) {
      var i :| 0 <= i < |bars[n..]| && bars[n..][i] == b;
      assert bars[n + i] == b;
    }
  }

  lemma NewerOneMore(bars: seq<Bar>, b: Bar, last: Option<int>)
    requires forall y :: y in bars ==> y.close < b.close
    ensures var kept := Newer(bars, last);
            && Newer(bars + [b], last) == (if kept == [] && Old(b, last) then [] else kept + [b])
            && (kept != [] ==> kept[|kept| - 1] in bars && !Old(b, last))
  {
    var more, n := bars + [b], Stale(bars, last);
    assert more[..|bars|] == bars;
    StaleExact(bars, last);
    if n < |bars| {
      assert bars[n] in bars;
      assert more[n..] == bars[n..] + [b];
    }
  }

  /** How many of `n` further bars the consumer still takes. */
  function Free(cfg: Config, s: Loop, n: nat): nat {
    if cfg.room.None? || |s.out| + n <= cfg.room.value then n
    else if |s.out| < cfg.room.value then cfg.room.value - |s.out|
    else 0
  }

  function Taken(cfg: Config, s: Loop, bars: seq<Bar>): (r: seq<Bar>)
    ensures |r| == Free(cfg, s, |bars|) <= |bars|
  {
    bars[..Free(cfg, s, |bars|)]
  }

  lemma TakenJoin(cfg: Config, s: Loop, a: seq<Bar>, b: seq<Bar>, mid: Loop)
    requires |mid.out| == |s.out| + |Taken(cfg, s, a)|
    ensures Taken(cfg, s, a + b) == Taken(cfg, s, a) + Taken(cfg, mid, b)
  {
  }

  /** What delivering a rising run of one symbol's bars amounts to. */
  ghost predicate Delivered(cfg: Config, s: Loop, s': Loop, bars: seq<Bar>, x: Symbol) {
    var kept := Taken(cfg, s, Newer(bars, Lookup(s.last, x)));
    && s'.out == s.out + kept && s'.pending == s.pending
    && (forall y :: y != x ==> Lookup(s'.last, y) == Lookup(s.last, y))
    && Lookup(s'.last, x) == if kept == [] then Lookup(s.last, x) else Some(kept[|kept| - 1].close)
  }

  /** The last close time recorded for a symbol lets the next bar through exactly if the whole run does. */
  lemma RefusalExact(cfg: Config, s: Loop, mid: Loop, bars: seq<Bar>, b: Bar, x: Symbol)
    requires b.symbol == x && Delivered(cfg, s, mid, bars, x) && forall y :: y in bars ==> y.close < b.close
    ensures var newer, more := Newer(bars, Lookup(s.last, x)), Newer(bars + [b], Lookup(s.last, x));
            Taken(cfg, s, more) == Taken(cfg, s, newer) + if Refusal(cfg, mid, b).None? then [b] else []
  {
    hide Newer;
    var last := Lookup(s.last, x);
    var newer := Newer(bars, last);
    NewerOneMore(bars, b, last);
    var kept := Taken(cfg, s, newer);
    if |kept| == |newer| {
      assert kept == newer;
      TakenJoin(cfg, s, newer, [b], mid);
    } else {
      assert cfg.room.Some? && |mid.out| >= cfg.room.value;
      TakenJoin(cfg, s, newer, [b], mid);
    }
  }

  lemma DeliverOneMore(cfg: Config, s: Loop, mid: Loop, bars: seq<Bar>, b: Bar, x: Symbol)
    requires b.symbol == x && Delivered(cfg, s, mid, bars, x) && forall y :: y in bars ==> y.close < b.close
    ensures Delivered(cfg, s, Deliver(cfg, mid, b), bars + [b], x)
  {
    RefusalExact(cfg, s, mid, bars, b, x);
    hide Newer, Taken, Refusal;
    var kept := Taken(cfg, s, Newer(bars, Lookup(s.last, x)));
    assert s.out + (kept + [b]) == s.out + kept + [b] && kept + [] == kept;
  }

  /** A rising run of one symbol's bars is delivered from the first newer one on, as far as the consumer goes. */
  lemma {:induction false} DeliverAllExact(cfg: Config, s: Loop, bars: seq<Bar>, x: Symbol)
    requires Rising(bars) && forall b :: b in bars ==> b.symbol == x
    ensures Delivered(cfg, s, DeliverAll(cfg, s, bars), bars, x)
  {
    if bars != [] {
      hide Delivered, Deliver;
      var init, b := bars[..|bars| - 1], bars[|bars| - 1];
      assert bars == init + [b] && b in bars;
      LastOfRising(init, b);
      DeliverAllExact(cfg, s, init, x);
      DeliverOneMore(cfg, s, DeliverAll(cfg, s, init), init, b, x);
    }
  }

  /** For each symbol in turn, the buffered bars newer than the last one emitted. */
  function Backlog(s: Loop, syms: seq<Symbol>): seq<Bar> {
    if syms == [] then [] else
      Backlog(s, syms[..|syms| - 1]) + Newer(Buffer(s, syms[|syms| - 1]), Lookup(s.last, syms[|syms| - 1]))
  }

  /** The backlog of all buffers, in the order of the names. */
  ghost function WholeBacklog(s: Loop): seq<Bar> { Backlog(s, Ascending(s.pending.Keys)) }

  /** The backlog holds exactly the buffered bars that close after their symbol's last emitted bar. */
  lemma {:induction false} BacklogExact(s: Loop, feed: seq<Bar>, syms: seq<Symbol>, b: Bar)
    requires BuffersRise(s, feed)
    ensures b in Backlog(s, syms) <==> exists sym :: sym in syms && b in Buffer(s, sym) && !Old(b, Lookup(s.last, sym))
  {
    if syms != [] {
      hide Newer, Old;
      var init, x := syms[..|syms| - 1], syms[|syms| - 1];
      assert syms == init + [x];
      BacklogExact(s, feed, init, b);
      assert BufferOf(s, feed, x);
      NewerExact(Buffer(s, x), Lookup(s.last, x));
    }
  }

  lemma {:induction false} FlushAllExact(cfg: Config, s: Loop, feed: seq<Bar>, syms: seq<Symbol>)
    requires BuffersRise(s, feed) && Strict(syms)
    ensures var s' := FlushAll(cfg, s, syms);
            && s'.out == s.out + Taken(cfg, s, Backlog(s, syms))
            && (forall y :: y !in syms ==> Buffer(s', y) == Buffer(s, y) && Lookup(s'.last, y) == Lookup(s.last, y))
  {
    hide Taken, Free, Newer, FlushOne;
    if syms == [] {
      NothingTaken(cfg, s);
    } else {
      var init, x := syms[..|syms| - 1], syms[|syms| - 1];
      LastIsGreatest(syms);
      assert x !in init && syms == init + [x];
      FlushAllExact(cfg, s, feed, init);
      var mid := FlushAll(cfg, s, init);
      assert BufferOf(s, feed, x);
      OfMembers(x, feed);
      FlushOneExact(cfg, mid, x);
      TakenJoin(cfg, s, Backlog(s, init), Newer(Buffer(s, x), Lookup(s.last, x)), mid);
    }
  }

  lemma NothingTaken(cfg: Config, s: Loop)
    ensures Taken(cfg, s, []) == []
  {
  }

  lemma FlushOneExact(cfg: Config, s: Loop, x: Symbol)
    requires Rising(Buffer(s, x)) && forall b :: b in Buffer(s, x) ==> b.symbol == x
    ensures var s' := FlushOne(cfg, s, x);
            && s'.out == s.out + Taken(cfg, s, Newer(Buffer(s, x), Lookup(s.last, x)))
            && (forall y :: y != x ==> Buffer(s', y) == Buffer(s, y) && Lookup(s'.last, y) == Lookup(s.last, y))
  {
    hide Newer;
    DeliverAllExact(cfg, TakeOut(s, x), Buffer(s, x), x);
  }

  /** A flush after any run fed in order emits, symbol by symbol, exactly the buffered suffixes newer than the last
      emitted bar, as far as the consumer goes, and leaves nothing buffered. */
  lemma FlushExact(cfg: Config, events: seq<Event>)
    requires FedInOrder(events)
    ensures var s := Run(cfg, events); var s' := Flush(cfg, s);
            && s'.out == s.out + Taken(cfg, s, WholeBacklog(s)) && s'.pending == map[]
            && SortAll(s.pending) == s.pending && Strict(Ascending(s.pending.Keys))
            && (forall sym :: Rising(Buffer(s, sym)))
  {
    hide Inv, Taken;
    var s := Run(cfg, events);
    RunBuffersRise(cfg, events);
    RunKeeps(cfg, events);
    SortIsIdentity(s, Fed(events));
    AscendingExact(s.pending.Keys);
    FlushAllExact(cfg, s, Fed(events), Ascending(s.pending.Keys));
    FlushKeeps(cfg, s);
    forall sym ensures Rising(Buffer(s, sym)) { assert BufferOf(s, Fed(events), sym); }
  }

  // ---- The flush inside an iteration ----

  /** The iteration gets as far as the readiness test: the bar was held or emitted. */
  ghost predicate Proceeds(cfg: Config, s: Loop, b: Bar, env: Env) {
    || (env.inGap && b.origin == Live)
    || (Validate(cfg, env.now, Lookup(s.last, b.symbol), b).None? && Refusal(cfg, s, b).None?)
  }

  /** An iteration that is ready in a gap is the same iteration, not ready, followed by a flush. */
  lemma OnBarFlushes(cfg: Config, s: Loop, b: Bar, env: Env)
    ensures var mid := OnBar(cfg, s, b, env.(ready := false));
            OnBar(cfg, s, b, env)
            == if env.ready && env.stillInGap && Proceeds(cfg, s, b, env) then Flush(cfg, mid) else mid
  {
    hide Flush, Validate;
  }

  // ---- Router and bars task together ----

  lemma RisingPrefix(sym: Symbol, a: seq<Bar>, b: seq<Bar>)
    requires a <= b && Rising(LiveOf(sym, b))
    ensures Rising(LiveOf(sym, a))
  {
    assert b == a + b[|a|..];
    OfJoin(sym, a, b[|a|..]);
    var all, part := LiveOf(sym, b), LiveOf(sym, a);
    assert forall i {:trigger part[i]} :: 0 <= i < |part| ==> all[i] == part[i];
  }

  /** Whatever the router received and however far the bars task has come: buffers rise, and emitted bars of a
      symbol rise over history, gap and live bars alike. */
  lemma RouterFeedsInOrder(tf: int, msgs: seq<R.Message>, cfg: Config, events: seq<Event>)
    requires Fed(events) <= R.Life(tf, msgs).sent
    ensures FedInOrder(events)
    ensures var s := Run(cfg, events); Inv(s) && BuffersRise(s, Fed(events))
  {
    forall sym ensures Rising(LiveOf(sym, Fed(events))) {
      R.LiveOutputRises(tf, msgs, sym);
      RisingPrefix(sym, Fed(events), R.Life(tf, msgs).sent);
    }
    RunKeeps(cfg, events);
    RunBuffersRise(cfg, events);
  }

  /** What one iteration of the bars task adds to the output beyond its own bar, whatever the router received: when
      it is ready in a gap, the backlog of every buffer as far as the consumer goes; otherwise nothing. */
  lemma IterationFlushes(tf: int, msgs: seq<R.Message>, cfg: Config, events: seq<Event>, b: Bar, env: Env)
    requires Fed(events + [Arrive(b, env)]) <= R.Life(tf, msgs).sent
    ensures var s := Run(cfg, events + [Arrive(b, env)]);
            var mid := Run(cfg, events + [Arrive(b, env.(ready := false))]);
            if env.ready && env.stillInGap && Proceeds(cfg, Run(cfg, events), b, env)
            then s.out == mid.out + Taken(cfg, mid, WholeBacklog(mid)) && s.pending == map[]
            else s == mid
  {
    hide OnBar, Proceeds, FedInOrder, BuffersRise, Inv;
    var all, quiet := events + [Arrive(b, env)], events + [Arrive(b, env.(ready := false))];
    assert all[..|events|] == events && quiet[..|events|] == events;
    assert Fed(quiet) == Fed(events) + [b] == Fed(all);
    RouterFeedsInOrder(tf, msgs, cfg, quiet);
    OnBarFlushes(cfg, Run(cfg, events), b, env);
    FlushExact(cfg, quiet);
  }
}
