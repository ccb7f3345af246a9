/** The router task, bar by bar, over its mutable hold-back map. */
module Router {
  import opened Results
  import opened GatewayBars
  import M = RouterModel

  class Router {
    const tf: int
    var liveBuffers: map<Symbol, Bar>
    var liveCutoff: Option<int>
    var historyOrigin: Origin
    /** The bars put on the outgoing channel. */
    var sent: seq<Bar>

    function State(): M.Hold reads this { M.Hold(liveBuffers, liveCutoff, historyOrigin) }

    /** The state and the output are those of a whole life that received `msgs`. */
    ghost predicate Lived(msgs: seq<M.Message>) reads this { M.Routed(State(), sent) == M.Life(tf, msgs) }

    constructor (tf: int)
      ensures this.tf == tf && Lived([])
    {
      this.tf := tf;
      liveBuffers, liveCutoff, historyOrigin, sent := map[], None, History, [];
    }

    method UpdateSubscribeWallclock(ts: int, origin: Origin, ghost msgs: seq<M.Message>)
      requires Lived(msgs)
      modifies this
      ensures Lived(msgs + [M.Wallclock(ts, origin)])
    {
      liveCutoff := Some(ts - 2 * tf);
      historyOrigin := origin;
      assert (msgs + [M.Wallclock(ts, origin)])[..|msgs|] == msgs;
      assert sent + [] == sent;
    }

    method RouteBar(bar: Bar)
      modifies this`liveBuffers, this`sent
      ensures liveBuffers == M.Relay(old(liveBuffers), bar).buffers
      ensures sent == old(sent) + M.Relay(old(liveBuffers), bar).sent
    {
      if bar.origin != Live {
        sent := sent + [bar];
      } else if bar.symbol !in liveBuffers {
        liveBuffers := liveBuffers[bar.symbol := bar];
      } else {
        var prev := liveBuffers[bar.symbol];
        if bar.close == prev.close {
          liveBuffers := liveBuffers[bar.symbol := bar];
        } else if bar.close > prev.close {
          sent := sent + [prev];
          liveBuffers := liveBuffers[bar.symbol := bar];
        }
      }
    }

    method OnFrame(bars: seq<Bar>, ghost msgs: seq<M.Message>)
      requires Lived(msgs)
      modifies this
      ensures Lived(msgs + [M.Frame(bars)])
    {
      ghost var start, before := State(), sent;
      var i := 0;
      while i < |bars|
        invariant 0 <= i <= |bars|
        invariant liveCutoff == start.cutoff && historyOrigin == start.historyOrigin
        invariant M.Relayed(liveBuffers, sent) == After(before, M.FrameUpTo(start, bars, i))
      {
        hide M.Relay, M.FrameUpTo, M.StampAll, M.RelayAll;
        M.FrameStep(start, bars, i);
        var past := liveCutoff.Some? && bars[i].close <= liveCutoff.value;
        RouteBar(bars[i].(origin := if past then historyOrigin else Live));
        i := i + 1;
      }
      assert bars[..i] == bars;
      assert (msgs + [M.Frame(bars)])[..|msgs|] == msgs;
    }

    static ghost function After(before: seq<Bar>, r: M.Relayed): M.Relayed { r.(sent := before + r.sent) }
  }
}
