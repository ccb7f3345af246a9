/** Market bars as they travel through the gateway. */
module GatewayBars {
  import opened Results

  /** Instruments, numbered in the order of their names. */
  type Symbol = int

  datatype Origin = History | HistoryGap | Live

  /** A 64-bit float, rounding aside. */
  datatype Number = NotANumber | MinusInfinity | PlusInfinity | Finite(value: real)

  datatype Bar = Bar(symbol: Symbol, close: int, o: Number, h: Number, l: Number, c: Number, v: Number, origin: Origin)

  function Lookup<V>(m: map<Symbol, V>, sym: Symbol): Option<V> { if sym in m then Some(m[sym]) else None }

  /** The bars of one symbol, in order. */
  function Of(sym: Symbol, bars: seq<Bar>): (r: seq<Bar>) {
    if bars == [] then [] else
      var init, last := Of(sym, bars[..|bars| - 1]), bars[|bars| - 1];
      if last.symbol == sym then init + [last] else init
  }

  /** The live bars of one symbol, in order. */
  function LiveOf(sym: Symbol, bars: seq<Bar>): (r: seq<Bar>) {
    if bars == [] then [] else
      var init, last := LiveOf(sym, bars[..|bars| - 1]), bars[|bars| - 1];
      if last.symbol == sym && last.origin == Live then init + [last] else init
  }

  predicate Rising(bars: seq<Bar>) {
    forall i, j :: 0 <= i < j < |bars| ==> bars[i].close < bars[j].close
  }

  lemma OfOne(sym: Symbol, bars: seq<Bar>, b: Bar)
    ensures Of(sym, bars + [b]) == if b.symbol == sym then Of(sym, bars) + [b] else Of(sym, bars)
    ensures LiveOf(sym, bars + [b])
         == if b.symbol == sym && b.origin == Live then LiveOf(sym, bars) + [b] else LiveOf(sym, bars)
  {
    assert (bars + [b])[..|bars|] == bars;
  }

  lemma {:induction false} OfJoin(sym: Symbol, a: seq<Bar>, b: seq<Bar>)
    ensures Of(sym, a + b) == Of(sym, a) + Of(sym, b)
    ensures LiveOf(sym, a + b) == LiveOf(sym, a) + LiveOf(sym, b)
  {
    if b == [] {
      assert a + b == a;
    } else {
      var init, last := b[..|b| - 1], b[|b| - 1];
      assert a + b == (a + init) + [last] && b == init + [last];
      OfJoin(sym, a, init);
      OfOne(sym, a + init, last);
      OfOne(sym, init, last);
    }
  }

  lemma {:induction false} OfMembers(sym: Symbol, bars: seq<Bar>)
    ensures forall b :: b in Of(sym, bars) <==> b in bars && b.symbol == sym
    ensures forall b :: b in LiveOf(sym, bars) <==> b in bars && b.symbol == sym && b.origin == Live
  {
    if bars != [] {
      OfMembers(sym, bars[..|bars| - 1]);
      assert bars == bars[..|bars| - 1] + [bars[|bars| - 1]];
    }
  }

  lemma RisingAppend(bars: seq<Bar>, b: Bar)
    requires Rising(bars) && (bars != [] ==> bars[|bars| - 1].close < b.close)
    ensures Rising(bars + [b])
  {
  }
}
