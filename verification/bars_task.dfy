/** The bars task itself: shared maps updated in place, bar by bar. */
module BarsTask {
  import opened Results
  import opened Increasing
  import opened GatewayBars
  import opened BarsSafety
  import L = BarsLoop

  datatype EmitResult = Emitted | DuplicateOrOld | SendFailed

  class Task {
    const cfg: L.Config
    var received: map<Symbol, nat>
    var emitted: map<Symbol, nat>
    var dropped: map<(Symbol, L.Reason), nat>
    var ignored: map<(Symbol, L.IgnoredReason), nat>
    var lastClose: map<Symbol, int>
    var lastEmitted: map<Symbol, int>
    var pending: map<Symbol, seq<Bar>>
    var bufferedBars: map<Symbol, nat>
    /** The bars taken by the consumer. */
    var taken: seq<Bar>

    function Now(): L.Loop
      reads this
    {
      L.Loop(L.Stats(received, emitted, dropped, ignored, lastClose), lastEmitted, pending, bufferedBars, taken)
    }

    constructor (cfg: L.Config)
      ensures this.cfg == cfg && Now() == L.Run(cfg, [])
    {
      this.cfg := cfg;
      received, emitted, dropped, ignored := map[], map[], map[], map[];
      lastClose, lastEmitted, pending, bufferedBars, taken := map[], map[], map[], map[], [];
    }

    method RecordDropped(sym: Symbol, reason: L.Reason)
      modifies this`dropped
      ensures Now() == L.Drop(old(Now()), sym, reason)
    {
      dropped := dropped[(sym, reason) := (if (sym, reason) in dropped then dropped[(sym, reason)] else 0) + 1];
    }

    method RecordEmitted(sym: Symbol, close: int)
      modifies this`emitted, this`lastClose
      ensures emitted == L.Bump(old(emitted), sym) && lastClose == old(lastClose)[sym := close]
    {
      emitted := emitted[sym := (if sym in emitted then emitted[sym] else 0) + 1];
      lastClose := lastClose[sym := close];
    }

    method RecordIgnored(sym: Symbol, reason: L.IgnoredReason)
      modifies this
      ensures Now() == L.Step(cfg, old(Now()), L.Ignore(sym, reason))
    {
      ignored := ignored[(sym, reason) := (if (sym, reason) in ignored then ignored[(sym, reason)] else 0) + 1];
    }

    method EmitBar(b: Bar) returns (r: EmitResult)
      modifies this`taken, this`lastEmitted
      ensures match L.Refusal(cfg, old(Now()), b)
              case None =>
                r == Emitted && taken == old(taken) + [b] && lastEmitted == old(lastEmitted)[b.symbol := b.close]
              case Some(reason) =>
                r == (if reason == L.DuplicateOrOld then DuplicateOrOld else SendFailed)
                && taken == old(taken) && lastEmitted == old(lastEmitted)
    {
      if b.symbol in lastEmitted && b.close <= lastEmitted[b.symbol] { return DuplicateOrOld; }
      if cfg.room.None? || |taken| < cfg.room.value {
        taken := taken + [b];
        lastEmitted := lastEmitted[b.symbol := b.close];
        return Emitted;
      }
      return SendFailed;
    }

    method Deliver(b: Bar) returns (r: EmitResult)
      modifies this`taken, this`lastEmitted, this`emitted, this`lastClose, this`dropped
      ensures Now() == L.Deliver(cfg, old(Now()), b)
      ensures r == Emitted <==> L.Refusal(cfg, old(Now()), b).None?
    {
      r := EmitBar(b);
      match r
      case Emitted => RecordEmitted(b.symbol, b.close);
      case DuplicateOrOld => RecordDropped(b.symbol, L.DuplicateOrOld);
      case SendFailed => RecordDropped(b.symbol, L.EmitFailed);
    }

    method SortedKeys() returns (symbols: seq<Symbol>)
      ensures symbols == L.Ascending(pending.Keys)
    {
      var rest := pending.Keys;
      symbols := [];
      while exists x :: x in rest
        invariant Strict(symbols) && rest <= pending.Keys
        invariant forall x :: x in symbols <==> x in pending.Keys && x !in rest
        invariant forall x, y :: x in symbols && y in rest ==> x < y
        decreases rest
      {
        var least := Minimum(rest);
        Append(symbols, least);
        symbols := symbols + [least];
        rest := rest - {least};
      }
      AscendingExact(pending.Keys);
      Unique(symbols, L.Ascending(pending.Keys));
    }

    method FlushSymbol(sym: Symbol)
      requires sym in pending
      modifies this`pending, this`bufferedBars, this`taken, this`lastEmitted, this`emitted, this`lastClose, this`dropped
      ensures Now() == L.FlushOne(cfg, old(Now()), sym)
    {
      hide L.Deliver;
      ghost var start := Now();
      var bars := pending[sym];
      pending := pending - {sym};
      if sym in bufferedBars { bufferedBars := bufferedBars[sym := L.Less(bufferedBars[sym], |bars|)]; }
      ghost var removed := L.TakeOut(start, sym);
      assert Now() == removed;
      var i := 0;
      while i < |bars|
        invariant 0 <= i <= |bars|
        invariant Now() == L.DeliverAll(cfg, removed, bars[..i])
      {
        assert bars[..i + 1][..i] == bars[..i];
        var _ := Deliver(bars[i]);
        i := i + 1;
      }
      assert bars[..i] == bars;
    }

    method FlushPendingLive()
      modifies this`pending, this`bufferedBars, this`taken, this`lastEmitted, this`emitted, this`lastClose, this`dropped
      ensures Now() == L.Flush(cfg, old(Now()))
    {
      hide L.FlushOne, L.Ascending;
      ghost var start := Now();
      pending := map sym | sym in pending :: L.SortByClose(pending[sym]);
      ghost var ready := start.(pending := L.SortAll(start.pending));
      assert Now() == ready && pending.Keys == start.pending.Keys;
      var symbols := SortedKeys();
      AscendingExact(pending.Keys);
      var i := 0;
      while i < |symbols|
        invariant 0 <= i <= |symbols|
        invariant Now() == L.FlushAll(cfg, ready, symbols[..i])
      {
        assert symbols[..i + 1][..i] == symbols[..i];
        if symbols[i] in pending { FlushSymbol(symbols[i]); } else { SkipAbsent(Now(), symbols[i]); }
        i := i + 1;
      }
      assert symbols[..i] == symbols;
    }

    lemma SkipAbsent(s: L.Loop, sym: Symbol)
      requires sym !in s.pending
      ensures L.FlushOne(cfg, s, sym) == s
    {
      assert s.pending - {sym} == s.pending;
      if sym in s.buffered { assert s.buffered[sym := s.buffered[sym]] == s.buffered; }
    }

    method OnBar(bar: Bar, env: L.Env)
      modifies this
      ensures Now() == L.Step(cfg, old(Now()), L.Arrive(bar, env))
    {
      hide L.Validate, L.Deliver, L.Refusal, L.Flush, L.Drop;
      received := received[bar.symbol := (if bar.symbol in received then received[bar.symbol] else 0) + 1];
      ghost var s0 := Now();
      if env.inGap && bar.origin == Live {
        pending := pending[bar.symbol := (if bar.symbol in pending then pending[bar.symbol] else []) + [bar]];
        var count := if bar.symbol in bufferedBars then bufferedBars[bar.symbol] else 0;
        bufferedBars := bufferedBars[bar.symbol := count + 1];
        assert Now() == L.Hold(s0, bar);
      } else {
        var last := if bar.symbol in lastEmitted then Some(lastEmitted[bar.symbol]) else None;
        var fault := L.Validate(cfg, env.now, last, bar);
        if fault.Some? {
          RecordDropped(bar.symbol, fault.value);
          return;
        }
        var r := Deliver(bar);
        if r != Emitted { return; }
      }
      if env.ready && env.stillInGap { FlushPendingLive(); }
    }
  }
}
