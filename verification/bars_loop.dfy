/** The gateway's bars task: validation, gap buffering, emission and quality counters. */
module BarsLoop {
  import opened Results
  import opened Increasing
  import opened GatewayBars

  datatype Reason =
    | DuplicateOrOld | BadTimestamp | BadOhlc | NonFinite
    | NegativeVolume | FourPriceDoji | NotClosedYet | EmitFailed

  datatype IgnoredReason = OldGeneration | InactiveGuid | UnknownGuid | JsonParseError

  /** `room` is the number of bars the consumer accepts before it goes away; with None it never does. */
  datatype Config = Config(tf: int, allowDoji: bool, grace: int, room: Option<nat>)

  datatype Stats = Stats(received: map<Symbol, nat>, emitted: map<Symbol, nat>,
                         dropped: map<(Symbol, Reason), nat>, ignored: map<(Symbol, IgnoredReason), nat>,
                         lastClose: map<Symbol, int>)

  datatype Loop = Loop(stats: Stats, last: map<Symbol, int>, pending: map<Symbol, seq<Bar>>,
                       buffered: map<Symbol, nat>, out: seq<Bar>)

  /** What one iteration reads from the rest of the gateway: the phase before and after, readiness, the clock. */
  datatype Env = Env(inGap: bool, ready: bool, stillInGap: bool, now: int)

  datatype Event = Arrive(bar: Bar, env: Env) | Ignore(symbol: Symbol, reason: IgnoredReason)

  const Start := Loop(Stats(map[], map[], map[], map[], map[]), map[], map[], map[], [])

  function Count<K>(m: map<K, nat>, k: K): nat { if k in m then m[k] else 0 }

  function Bump<K>(m: map<K, nat>, k: K): map<K, nat> { m[k := Count(m, k) + 1] }

  function Buffer(s: Loop, sym: Symbol): seq<Bar> { if sym in s.pending then s.pending[sym] else [] }

  // ---- Validation ----

  predicate Negative(x: Number) { x == MinusInfinity || (x.Finite? && x.value < 0.0) }

  function Validate(cfg: Config, now: int, last: Option<int>, b: Bar): Option<Reason> {
    if last.Some? && b.close <= last.value then Some(DuplicateOrOld)
    else if cfg.tf > 0 && b.close % cfg.tf != 0 then Some(BadTimestamp)
    else if b.close > now + cfg.grace then Some(NotClosedYet)
    else if !b.o.Finite? || !b.h.Finite? || !b.l.Finite? || !b.c.Finite? then Some(NonFinite)
    else
      var high, low := b.h.value, b.l.value;
      var top := if b.o.value > b.c.value then b.o.value else b.c.value;
      var bottom := if b.o.value < b.c.value then b.o.value else b.c.value;
      if high < top || low > bottom || high < low then Some(BadOhlc)
      else if Negative(b.v) then Some(NegativeVolume)
      else if !cfg.allowDoji && high == low then Some(FourPriceDoji)
      else None
  }

  // ---- Emission ----

  function Refusal(cfg: Config, s: Loop, b: Bar): Option<Reason> {
    if b.symbol in s.last && b.close <= s.last[b.symbol] then Some(DuplicateOrOld)
    else if cfg.room.Some? && |s.out| >= cfg.room.value then Some(EmitFailed)
    else None
  }

  function Drop(s: Loop, sym: Symbol, reason: Reason): Loop {
    s.(stats := s.stats.(dropped := Bump(s.stats.dropped, (sym, reason))))
  }

  function Deliver(cfg: Config, s: Loop, b: Bar): Loop {
    match Refusal(cfg, s, b)
    case Some(reason) => Drop(s, b.symbol, reason)
    case None =>
      s.(last := s.last[b.symbol := b.close], out := s.out + [b],
         stats := s.stats.(emitted := Bump(s.stats.emitted, b.symbol),
                           lastClose := s.stats.lastClose[b.symbol := b.close]))
  }

  function DeliverAll(cfg: Config, s: Loop, bars: seq<Bar>): Loop {
    if bars == [] then s else Deliver(cfg, DeliverAll(cfg, s, bars[..|bars| - 1]), bars[|bars| - 1])
  }

  // ---- Flushing the gap buffers ----

  function InsertByClose(bars: seq<Bar>, b: Bar): (r: seq<Bar>)
    ensures |r| == |bars| + 1
  {
    if bars == [] || bars[|bars| - 1].close <= b.close then bars + [b]
    else InsertByClose(bars[..|bars| - 1], b) + [bars[|bars| - 1]]
  }

  /** The stable sort by close time. */
  function SortByClose(bars: seq<Bar>): (r: seq<Bar>)
    ensures |r| == |bars|
  {
    if bars == [] then [] else InsertByClose(SortByClose(bars[..|bars| - 1]), bars[|bars| - 1])
  }

  function SortAll(pending: map<Symbol, seq<Bar>>): map<Symbol, seq<Bar>> {
    map sym | sym in pending :: SortByClose(pending[sym])
  }

  function Less(a: nat, b: nat): nat { if a < b then 0 else a - b }

  /** Takes one symbol's buffer out before its bars are delivered. */
  function TakeOut(s: Loop, sym: Symbol): Loop {
    s.(pending := s.pending - {sym},
       buffered := if sym in s.buffered then s.buffered[sym := Less(s.buffered[sym], |Buffer(s, sym)|)] else s.buffered)
  }

  function FlushOne(cfg: Config, s: Loop, sym: Symbol): Loop { DeliverAll(cfg, TakeOut(s, sym), Buffer(s, sym)) }

  function FlushAll(cfg: Config, s: Loop, syms: seq<Symbol>): Loop {
    if syms == [] then s else FlushOne(cfg, FlushAll(cfg, s, syms[..|syms| - 1]), syms[|syms| - 1])
  }

  ghost function Ascending(keys: set<Symbol>): (r: seq<Symbol>) {
    if exists x :: x in keys then
      var least := Least(keys);
      [least] + Ascending(keys - {least})
    else []
  }

  ghost function Flush(cfg: Config, s: Loop): Loop {
    FlushAll(cfg, s.(pending := SortAll(s.pending)), Ascending(s.pending.Keys))
  }

  // ---- One event ----

  function Hold(s: Loop, b: Bar): Loop {
    s.(pending := s.pending[b.symbol := Buffer(s, b.symbol) + [b]], buffered := Bump(s.buffered, b.symbol))
  }

  ghost function Finish(cfg: Config, env: Env, s: Loop): Loop {
    if env.ready && env.stillInGap then Flush(cfg, s) else s
  }

  ghost function OnBar(cfg: Config, s: Loop, b: Bar, env: Env): Loop {
    var s0 := s.(stats := s.stats.(received := Bump(s.stats.received, b.symbol)));
    if env.inGap && b.origin == Live then Finish(cfg, env, Hold(s0, b))
    else
      match Validate(cfg, env.now, Lookup(s0.last, b.symbol), b)
      case Some(reason) => Drop(s0, b.symbol, reason)
      case None => if Refusal(cfg, s0, b).Some? then Deliver(cfg, s0, b) else Finish(cfg, env, Deliver(cfg, s0, b))
  }

  ghost function Step(cfg: Config, s: Loop, e: Event): Loop {
    match e
    case Ignore(sym, reason) => s.(stats := s.stats.(ignored := Bump(s.stats.ignored, (sym, reason))))
    case Arrive(b, env) => OnBar(cfg, s, b, env)
  }

  ghost function Run(cfg: Config, events: seq<Event>): Loop {
    if events == [] then Start else Step(cfg, Run(cfg, events[..|events| - 1]), events[|events| - 1])
  }

  /** The bars that reached the loop. */
  function Fed(events: seq<Event>): seq<Bar> {
    if events == [] then [] else
      Fed(events[..|events| - 1]) + match events[|events| - 1] { case Arrive(b, _) => [b] case Ignore(_, _) => [] }
  }
}
