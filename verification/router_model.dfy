/** The router's treatment of bars: origin by cutoff, and the newest live bar of each symbol held back. */
module RouterModel {
  import opened Results
  import opened GatewayBars

  /** A raw message: a new subscription time, or the bars parsed from one frame. */
  datatype Message =
    | Wallclock(ts: int, origin: Origin)
    | Frame(bars: seq<Bar>)

  datatype Hold = Hold(buffers: map<Symbol, Bar>, cutoff: Option<int>, historyOrigin: Origin)

  const Start := Hold(map[], None, History)

  /** Bars are parsed without an origin; the cutoff in force gives them one. */
  function Stamp(s: Hold, b: Bar): Bar {
    b.(origin := if s.cutoff.Some? && b.close <= s.cutoff.value then s.historyOrigin else Live)
  }

  datatype Relayed = Relayed(buffers: map<Symbol, Bar>, sent: seq<Bar>)

  /** One stamped bar: history passes at once; a live bar releases the one it supersedes. */
  function Relay(buffers: map<Symbol, Bar>, b: Bar): Relayed {
    if b.origin != Live then Relayed(buffers, [b])
    else if b.symbol !in buffers || b.close == buffers[b.symbol].close then Relayed(buffers[b.symbol := b], [])
    else if b.close > buffers[b.symbol].close then Relayed(buffers[b.symbol := b], [buffers[b.symbol]])
    else Relayed(buffers, [])
  }

  function RelayAll(buffers: map<Symbol, Bar>, bars: seq<Bar>): Relayed {
    if bars == [] then Relayed(buffers, []) else
      var init := RelayAll(buffers, bars[..|bars| - 1]);
      var last := Relay(init.buffers, bars[|bars| - 1]);
      Relayed(last.buffers, init.sent + last.sent)
  }

  function StampAll(s: Hold, bars: seq<Bar>): (r: seq<Bar>)
    ensures |r| == |bars|
  {
    if bars == [] then [] else StampAll(s, bars[..|bars| - 1]) + [Stamp(s, bars[|bars| - 1])]
  }

  /** The first `n` bars of a frame. */
  function FrameUpTo(s: Hold, bars: seq<Bar>, n: nat): Relayed
    requires n <= |bars|
  {
    RelayAll(s.buffers, StampAll(s, bars[..n]))
  }

  lemma FrameStep(s: Hold, bars: seq<Bar>, n: nat)
    requires n < |bars|
    ensures FrameUpTo(s, bars, 0) == Relayed(s.buffers, [])
    ensures var r := FrameUpTo(s, bars, n);
            var last := Relay(r.buffers, Stamp(s, bars[n]));
            FrameUpTo(s, bars, n + 1) == Relayed(last.buffers, r.sent + last.sent)
  {
    hide Relay;
    assert bars[..n + 1][..n] == bars[..n];
    var stamped := StampAll(s, bars[..n]);
    assert StampAll(s, bars[..n + 1])[..n] == stamped;
  }

  datatype Routed = Routed(s: Hold, sent: seq<Bar>)

  function Handle(tf: int, s: Hold, m: Message): Routed {
    match m
    case Wallclock(ts, origin) => Routed(s.(cutoff := Some(ts - 2 * tf), historyOrigin := origin), [])
    case Frame(bars) =>
      var r := RelayAll(s.buffers, StampAll(s, bars));
      Routed(s.(buffers := r.buffers), r.sent)
  }

  /** The whole life of a router. */
  function Life(tf: int, msgs: seq<Message>): Routed {
    if msgs == [] then Routed(Start, []) else
      var r := Life(tf, msgs[..|msgs| - 1]);
      var last := Handle(tf, r.s, msgs[|msgs| - 1]);
      Routed(last.s, r.sent + last.sent)
  }

  // ---- What is received, read off the messages alone ----

  /** The subscription in force: the last one among the messages. */
  function LastSubscription(msgs: seq<Message>): Option<Message> {
    if msgs == [] then None
    else if msgs[|msgs| - 1].Wallclock? then Some(msgs[|msgs| - 1])
    else LastSubscription(msgs[..|msgs| - 1])
  }

  lemma {:induction false} LastSubscriptionExact(msgs: seq<Message>)
    ensures match LastSubscription(msgs)
            case None => forall i :: 0 <= i < |msgs| ==> msgs[i].Frame?
            case Some(m) =>
              m.Wallclock?
              && exists i :: 0 <= i < |msgs| && msgs[i] == m && forall j :: i < j < |msgs| ==> msgs[j].Frame?
  {
    if msgs != [] && msgs[|msgs| - 1].Frame? {
      var init := msgs[..|msgs| - 1];
      LastSubscriptionExact(init);
      assert forall i {:trigger msgs[i]} :: 0 <= i < |init| ==> msgs[i] == init[i];
      if LastSubscription(init).Some? {
        var m := LastSubscription(init).value;
        var i :| 0 <= i < |init| && init[i] == m && forall j :: i < j < |init| ==> init[j].Frame?;
        assert msgs[i] == init[i];
      }
    }
  }

  /** A bar that closes no later than two timeframes before the subscription in force is history; any other, and any
      bar before the first subscription, is live. */
  function Classified(tf: int, past: seq<Message>, b: Bar): Bar {
    match LastSubscription(past)
    case None => b.(origin := Live)
    case Some(m) => if m.Wallclock? && m.ts - b.close >= 2 * tf then b.(origin := m.origin) else b.(origin := Live)
  }

  function ClassifiedAll(tf: int, past: seq<Message>, bars: seq<Bar>): (r: seq<Bar>)
    ensures |r| == |bars| && forall k :: 0 <= k < |bars| ==> r[k] == Classified(tf, past, bars[k])
  {
    seq(|bars|, k requires 0 <= k < |bars| => Classified(tf, past, bars[k]))
  }

  /** Every bar received in a life, with the origin that the messages before it give it. */
  function Received(tf: int, msgs: seq<Message>): seq<Bar> {
    if msgs == [] then [] else
      var init, m := msgs[..|msgs| - 1], msgs[|msgs| - 1];
      Received(tf, init) + if m.Frame? then ClassifiedAll(tf, init, m.bars) else []
  }

  /** Message `j` is the last subscription before message `i`. */
  ghost predicate InForce(msgs: seq<Message>, i: nat, j: nat)
    requires i <= |msgs|
  {
    j < i && msgs[j].Wallclock? && forall k :: j < k < i ==> msgs[k].Frame?
  }

  lemma {:induction false} InForceExact(msgs: seq<Message>, i: nat, j: nat)
    requires i <= |msgs| && InForce(msgs, i, j)
    ensures LastSubscription(msgs[..i]) == Some(msgs[j])
    decreases i
  {
    var past := msgs[..i];
    if j < i - 1 {
      assert past[..i - 1] == msgs[..i - 1];
      InForceExact(msgs, i - 1, j);
    }
  }

  lemma {:induction false} ReceivedIndex(tf: int, msgs: seq<Message>, i: nat, k: nat)
    requires i < |msgs| && msgs[i].Frame? && k < |msgs[i].bars|
    ensures var at := |Received(tf, msgs[..i])| + k;
            at < |Received(tf, msgs)| && Received(tf, msgs)[at] == Classified(tf, msgs[..i], msgs[i].bars[k])
    decreases |msgs|
  {
    hide Classified, ClassifiedAll;
    var n := |msgs| - 1;
    if i < n {
      assert msgs[..n][..i] == msgs[..i] && msgs[..n][i] == msgs[i];
      ReceivedIndex(tf, msgs[..n], i, k);
    } else {
      assert msgs[..n] == msgs[..i];
      assert ClassifiedAll(tf, msgs[..i], msgs[i].bars)[k] == Classified(tf, msgs[..i], msgs[i].bars[k]);
    }
  }

  /** The `k`-th bar of message `i`, in the whole life: its content is kept, and its origin is the one announced by
      the subscription in force exactly if it closes at or before that subscription's time less two timeframes;
      otherwise, and before any subscription, it is live. */
  lemma ReceivedAt(tf: int, msgs: seq<Message>, i: nat, k: nat)
    requires i < |msgs| && msgs[i].Frame? && k < |msgs[i].bars|
    ensures |Received(tf, msgs[..i])| + k < |Received(tf, msgs)|
    ensures var raw, b := msgs[i].bars[k], Received(tf, msgs)[|Received(tf, msgs[..i])| + k];
            && b == raw.(origin := b.origin)
            && (forall j: nat :: InForce(msgs, i, j) ==>
                  b.origin == if raw.close <= msgs[j].ts - 2 * tf then msgs[j].origin else Live)
            && ((forall j :: 0 <= j < i ==> msgs[j].Frame?) ==> b.origin == Live)
  {
    ReceivedIndex(tf, msgs, i, k);
    hide Received;
    forall j: nat | InForce(msgs, i, j) ensures LastSubscription(msgs[..i]) == Some(msgs[j]) {
      InForceExact(msgs, i, j);
    }
    LastSubscriptionExact(msgs[..i]);
  }

  /** The cutoff the router keeps is that of the subscription in force. */
  lemma {:induction false} CutoffExact(tf: int, msgs: seq<Message>)
    ensures var s := Life(tf, msgs).s;
            match LastSubscription(msgs)
            case None => s.cutoff == None
            case Some(m) => m.Wallclock? && s.cutoff == Some(m.ts - 2 * tf) && s.historyOrigin == m.origin
  {
    if msgs != [] {
      hide RelayAll;
      CutoffExact(tf, msgs[..|msgs| - 1]);
    }
  }

  lemma {:induction false} StampsExact(tf: int, past: seq<Message>, bars: seq<Bar>)
    ensures StampAll(Life(tf, past).s, bars) == ClassifiedAll(tf, past, bars)
  {
    CutoffExact(tf, past);
    hide Life;
    if bars != [] {
      var n := |bars| - 1;
      StampsExact(tf, past, bars[..n]);
      assert ClassifiedAll(tf, past, bars) == ClassifiedAll(tf, past, bars[..n]) + [Classified(tf, past, bars[n])];
    }
  }

  // ---- What the hold-back is for ----

  /** `i` updates the running maximum close time. */
  ghost predicate Peak(bars: seq<Bar>, i: nat)
    requires i < |bars|
  {
    forall j :: 0 <= j < i ==> bars[j].close <= bars[i].close
  }

  ghost predicate Supersedes(bars: seq<Bar>, i: nat, j: nat)
    requires i < j < |bars|
  {
    bars[j].close > bars[i].close && forall k :: i < k < j ==> bars[k].close < bars[i].close
  }

  /** `i` is the last update of its bar: nothing newer precedes it, and a strictly newer bar follows before any
      further update of the same bar. */
  ghost predicate Completed(bars: seq<Bar>, i: nat)
    requires i < |bars|
  {
    Peak(bars, i) && exists j :: i < j < |bars| && Supersedes(bars, i, j)
  }

  ghost function CompletedUpTo(bars: seq<Bar>, n: nat): seq<Bar>
    requires n <= |bars|
  {
    if n == 0 then [] else CompletedUpTo(bars, n - 1) + if Completed(bars, n - 1) then [bars[n - 1]] else []
  }

  /** `i` is the newest update at the maximum close time seen so far. */
  ghost predicate Newest(bars: seq<Bar>, i: nat)
    requires i < |bars|
  {
    Peak(bars, i) && forall k :: i < k < |bars| ==> bars[k].close < bars[i].close
  }

  // ---- One symbol ----

  /** Everything completed precedes the newest update. */
  lemma CompletedIsOlder(bars: seq<Bar>, n: nat, i: nat)
    requires n < |bars| && Newest(bars, n) && i < |bars|
    ensures Completed(bars, i) ==> i < n && bars[i].close < bars[n].close
  {
    if Completed(bars, i) {
      var j :| i < j < |bars| && Supersedes(bars, i, j);
      assert bars[i].close < bars[j].close <= bars[n].close;
      assert i != n && !(n < i);
    }
  }

  lemma Prefix(bars: seq<Bar>, b: Bar, i: nat)
    requires i < |bars|
    ensures Peak(bars + [b], i) <==> Peak(bars, i)
    ensures forall j :: i < j < |bars| ==> (Supersedes(bars + [b], i, j) <==> Supersedes(bars, i, j))
  {
    var more := bars + [b];
    assert forall k {:trigger bars[k]} :: 0 <= k < |bars| ==> bars[k] == more[k];
  }

  /** One more bar completes the newest one exactly when it is strictly newer. */
  lemma CompletedAfter(bars: seq<Bar>, b: Bar, n: nat, i: nat)
    requires n < |bars| && Newest(bars, n) && i < |bars|
    ensures Completed(bars + [b], i) <==> Completed(bars, i) || (i == n && b.close > bars[n].close)
  {
    var more := bars + [b];
    Prefix(bars, b, i);
    assert Completed(more, i) <==> Completed(bars, i) || (Peak(bars, i) && Supersedes(more, i, |bars|));
    if i < n {
      assert more[n] == bars[n] && bars[i].close <= bars[n].close;
    } else if i == n {
      assert Supersedes(more, n, |bars|) <==> b.close > bars[n].close;
    } else {
      assert bars[i].close < bars[n].close;
    }
  }

  /** A bar that is not newer completes nothing; a newer one completes the newest only. */
  lemma {:induction false} CompletedUpToSame(bars: seq<Bar>, b: Bar, n: nat, m: nat)
    requires n < |bars| && Newest(bars, n) && m <= |bars| && (b.close <= bars[n].close || m <= n)
    ensures CompletedUpTo(bars + [b], m) == CompletedUpTo(bars, m)
  {
    if m > 0 {
      CompletedUpToSame(bars, b, n, m - 1);
      CompletedAfter(bars, b, n, m - 1);
    }
  }

  lemma {:induction false} NothingCompletedFrom(bars: seq<Bar>, n: nat, m: nat)
    requires n < |bars| && Newest(bars, n) && n <= m <= |bars|
    ensures CompletedUpTo(bars, m) == CompletedUpTo(bars, n)
    decreases m
  {
    if m > n {
      NothingCompletedFrom(bars, n, m - 1);
      CompletedIsOlder(bars, n, m - 1);
    }
  }

  lemma CompletedByNewer(bars: seq<Bar>, b: Bar, n: nat)
    requires n < |bars| && Newest(bars, n) && b.close > bars[n].close
    ensures CompletedUpTo(bars + [b], |bars| + 1) == CompletedUpTo(bars, |bars|) + [bars[n]]
  {
    hide Completed, Newest;
    var more := bars + [b];
    NewestAppended(bars, b, n);
    CompletedUpToSame(bars, b, n, n);
    CompletedAfter(bars, b, n, n);
    NothingCompletedFrom(bars, n, |bars|);
    CompletedIsOlder(bars, n, n);
    assert CompletedUpTo(more, n + 1) == CompletedUpTo(bars, n) + [bars[n]];
    SkipTail(bars, b, n, |bars|);
    CompletedIsOlder(more, |bars|, |bars|);
  }

  lemma NewestAppended(bars: seq<Bar>, b: Bar, n: nat)
    requires n < |bars| && Newest(bars, n)
    ensures Newest(bars + [b], if b.close < bars[n].close then n else |bars|)
  {
    Prefix(bars, b, n);
    assert forall k {:trigger (bars + [b])[k]} :: 0 <= k < |bars| ==> (bars + [b])[k].close <= bars[n].close;
  }

  lemma {:induction false} SkipTail(bars: seq<Bar>, b: Bar, n: nat, m: nat)
    requires n < |bars| && Newest(bars, n) && n + 1 <= m <= |bars|
    ensures CompletedUpTo(bars + [b], m) == CompletedUpTo(bars + [b], n + 1)
    decreases m
  {
    if m > n + 1 {
      SkipTail(bars, b, n, m - 1);
      CompletedAfter(bars, b, n, m - 1);
      CompletedIsOlder(bars, n, m - 1);
    }
  }

  /** What has been released for one symbol, and what is held back, after its live bars `bars`. */
  ghost predicate HeldBack(bars: seq<Bar>, held: Option<Bar>, released: seq<Bar>) {
    && released == CompletedUpTo(bars, |bars|)
    && (bars == [] <==> held.None?)
    && (held.Some? ==> exists n :: 0 <= n < |bars| && Newest(bars, n) && held.value == bars[n])
  }

  lemma HeldBackOne(bars: seq<Bar>, held: Option<Bar>, released: seq<Bar>, b: Bar)
    requires HeldBack(bars, held, released)
    ensures var newer := held.Some? && b.close > held.value.close;
            var keep := held.Some? && b.close < held.value.close;
            HeldBack(bars + [b], if keep then held else Some(b), released + if newer then [held.value] else [])
  {
    hide Completed, Newest;
    var more := bars + [b];
    if held.None? {
      FirstBar(b);
      assert more == [b];
    } else {
      var n :| 0 <= n < |bars| && Newest(bars, n) && held.value == bars[n];
      NewestAppended(bars, b, n);
      if b.close > bars[n].close {
        CompletedByNewer(bars, b, n);
      } else {
        CompletedUpToSame(bars, b, n, |bars|);
        CompletedIsOlder(more, if b.close < bars[n].close then n else |bars|, |bars|);
        assert CompletedUpTo(more, |more|) == CompletedUpTo(more, |bars|);
      }
    }
  }

  lemma FirstBar(b: Bar)
    ensures Newest([b], 0) && CompletedUpTo([b], 1) == []
  {
    assert Newest([b], 0);
    CompletedIsOlder([b], 0, 0);
    assert CompletedUpTo([b], 0) == [];
  }

  // ---- All symbols together ----

  /** The bars a router has released and holds for a symbol depend on the live bars of that symbol alone, and
      are what the specification says. Bars of other origins pass through unchanged and in order. */
  ghost predicate Refines(input: seq<Bar>, r: Relayed) {
    && (forall sym :: HeldBack(LiveOf(sym, input), Lookup(r.buffers, sym), LiveOf(sym, r.sent)))
    && (forall sym :: sym in r.buffers ==> r.buffers[sym].symbol == sym && r.buffers[sym].origin == Live)
    && PassThrough(r.sent) == PassThrough(input)
  }

  function PassThrough(bars: seq<Bar>): seq<Bar> {
    if bars == [] then [] else
      var init, last := PassThrough(bars[..|bars| - 1]), bars[|bars| - 1];
      if last.origin != Live then init + [last] else init
  }

  lemma PassThroughOne(bars: seq<Bar>, b: Bar)
    ensures PassThrough(bars + [b]) == if b.origin != Live then PassThrough(bars) + [b] else PassThrough(bars)
  {
    assert (bars + [b])[..|bars|] == bars;
  }

  lemma RelayOne(sym: Symbol, input: seq<Bar>, r: Relayed, b: Bar)
    requires HeldBack(LiveOf(sym, input), Lookup(r.buffers, sym), LiveOf(sym, r.sent))
    requires b.symbol in r.buffers ==> r.buffers[b.symbol].symbol == b.symbol && r.buffers[b.symbol].origin == Live
    ensures var next := Relay(r.buffers, b);
            HeldBack(LiveOf(sym, input + [b]), Lookup(next.buffers, sym), LiveOf(sym, r.sent + next.sent))
  {
    hide HeldBack, LiveOf;
    var next, held, released := Relay(r.buffers, b), Lookup(r.buffers, sym), LiveOf(sym, r.sent);
    OfOne(sym, input, b);
    if next.sent == [] {
      assert r.sent + next.sent == r.sent;
    } else {
      assert next.sent == [next.sent[0]];
      OfOne(sym, r.sent, next.sent[0]);
    }
    if b.symbol == sym && b.origin == Live {
      HeldBackOne(LiveOf(sym, input), held, released, b);
      assert released + [] == released;
      if next.sent != [] { assert LiveOf(sym, r.sent + next.sent) == released + [held.value]; }
    } else {
      assert Lookup(next.buffers, sym) == held;
      assert LiveOf(sym, r.sent + next.sent) == released;
    }
  }

  lemma RelayRefines(input: seq<Bar>, r: Relayed, b: Bar)
    requires Refines(input, r)
    ensures var next := Relay(r.buffers, b); Refines(input + [b], Relayed(next.buffers, r.sent + next.sent))
  {
    hide HeldBack;
    var next := Relay(r.buffers, b);
    assert r.sent + [] == r.sent;
    PassThroughOne(input, b);
    if next.sent != [] { PassThroughOne(r.sent, next.sent[0]); }
    forall sym ensures HeldBack(LiveOf(sym, input + [b]), Lookup(next.buffers, sym), LiveOf(sym, r.sent + next.sent)) {
      RelayOne(sym, input, r, b);
    }
  }

  lemma RefinesStart()
    ensures Refines([], Relayed(map[], []))
  {
  }

  lemma {:induction false} RelayAllRefines(input: seq<Bar>, r: Relayed, bars: seq<Bar>)
    requires Refines(input, r)
    ensures var next := RelayAll(r.buffers, bars); Refines(input + bars, Relayed(next.buffers, r.sent + next.sent))
  {
    hide Refines, Relay;
    if bars == [] {
      assert input + bars == input && r.sent + [] == r.sent;
    } else {
      var init, b := bars[..|bars| - 1], bars[|bars| - 1];
      RelayAllRefines(input, r, init);
      var mid := RelayAll(r.buffers, init);
      RelayRefines(input + init, Relayed(mid.buffers, r.sent + mid.sent), b);
      assert input + bars == (input + init) + [b];
      assert r.sent + (mid.sent + Relay(mid.buffers, b).sent) == (r.sent + mid.sent) + Relay(mid.buffers, b).sent;
    }
  }

  /** For every life of a router, on the bars as the messages classify them: per symbol, exactly the completed live
      bars were sent, in order; the newest update is held; history was sent unchanged. */
  lemma {:induction false} LifeRefines(tf: int, msgs: seq<Message>)
    ensures var r := Life(tf, msgs); Refines(Received(tf, msgs), Relayed(r.s.buffers, r.sent))
  {
    hide Refines;
    if msgs == [] {
      RefinesStart();
    } else {
      var init, m := msgs[..|msgs| - 1], msgs[|msgs| - 1];
      LifeRefines(tf, init);
      var r := Life(tf, init);
      if m.Frame? {
        StampsExact(tf, init, m.bars);
        RelayAllRefines(Received(tf, init), Relayed(r.s.buffers, r.sent), StampAll(r.s, m.bars));
      } else {
        assert r.sent + [] == r.sent && Received(tf, init) + [] == Received(tf, init);
      }
    }
  }

  // ---- Order ----

  lemma CompletedOrder(bars: seq<Bar>, i: nat, j: nat)
    requires i < j < |bars| && Completed(bars, i) && Completed(bars, j)
    ensures bars[i].close < bars[j].close
  {
    var k :| i < k < |bars| && Supersedes(bars, i, k);
    assert !(j < k);
    assert bars[k].close <= bars[j].close;
  }

  lemma CompletedRisingOn(bars: seq<Bar>, n: nat, i: nat)
    requires n < |bars| && Completed(bars, n) && i < n && Completed(bars, i)
    requires var done := CompletedUpTo(bars, n); Rising(done) && done != [] && done[|done| - 1] == bars[i]
    ensures Rising(CompletedUpTo(bars, n + 1))
  {
    CompletedOrder(bars, i, n);
    hide Completed;
    RisingAppend(CompletedUpTo(bars, n), bars[n]);
  }

  lemma {:induction false} CompletedRising(bars: seq<Bar>, n: nat)
    requires n <= |bars|
    ensures Rising(CompletedUpTo(bars, n))
    ensures forall b :: b in CompletedUpTo(bars, n) ==> exists i :: 0 <= i < n && Completed(bars, i) && bars[i] == b
  {
    hide Completed, Rising;
    if n == 0 {
      NothingRises();
    } else {
      CompletedRising(bars, n - 1);
      var done := CompletedUpTo(bars, n - 1);
      assert done + [] == done;
      if Completed(bars, n - 1) {
        if done == [] {
          OneRises(bars[n - 1]);
        } else {
          assert done[|done| - 1] in done;
          var i :| 0 <= i < n - 1 && Completed(bars, i) && bars[i] == done[|done| - 1];
          CompletedRisingOn(bars, n - 1, i);
        }
      }
    }
  }

  lemma NothingRises()
    ensures Rising([])
  {
  }

  lemma OneRises(b: Bar)
    ensures Rising([] + [b])
  {
  }

  /** Live bars leave the router in strictly increasing close time per symbol, and older than the one held. */
  lemma LiveOutputRises(tf: int, msgs: seq<Message>, sym: Symbol)
    ensures var r := Life(tf, msgs);
            && Rising(LiveOf(sym, r.sent))
            && (sym in r.s.buffers ==> forall b :: b in LiveOf(sym, r.sent) ==> b.close < r.s.buffers[sym].close)
  {
    LifeRefines(tf, msgs);
    var r := Life(tf, msgs);
    var bars := LiveOf(sym, Received(tf, msgs));
    assert HeldBack(bars, Lookup(r.s.buffers, sym), LiveOf(sym, r.sent));
    CompletedRising(bars, |bars|);
    if sym in r.s.buffers {
      var n :| 0 <= n < |bars| && Newest(bars, n) && r.s.buffers[sym] == bars[n];
      forall b | b in LiveOf(sym, r.sent) ensures b.close < r.s.buffers[sym].close {
        var i :| 0 <= i < |bars| && Completed(bars, i) && bars[i] == b;
        CompletedIsOlder(bars, n, i);
      }
    }
  }
}
