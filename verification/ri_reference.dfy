/** The session machine as an object whose methods update its fields bar by bar, and the replay loop around it. */
module RiReference {
  import opened Results
  import opened Calendar
  import opened Numbers
  import M = RiModel
  import opened RiContext
  import H = RiHistory

  class Reference {
    const day: int
    var prev: Option<M.Anchor>
    var prev2: Option<M.Anchor>
    var allowed: bool
    var mr: Option<M.MrPosition>
    var bo: Option<M.BoPosition>
    var pending: Option<M.Pending>
    var mrTotal: nat
    var boTotal: nat
    var count: nat
    var first: int
    var high: real
    var low: real
    var firstHigh: real
    var firstLow: real
    var longLevel: Option<real>
    var shortLevel: Option<real>
    var usedLong: bool
    var usedShort: bool
    var phase: M.Phase
    var actions: seq<M.Action>

    function Now(): M.Session
      reads this
    {
      M.Session(prev, prev2, allowed, mr, bo, pending, mrTotal, boTotal, count, first, high, low, firstHigh, firstLow,
                longLevel, shortLevel, usedLong, usedShort, phase)
    }

    constructor (warmup: seq<M.Bar>, day: int, policy: Policy, calendarAllows: bool)
      ensures this.day == day && Now() == M.Begin(ContextOf(warmup, policy), calendarAllows)
    {
      var c := BuildContext(warmup, policy);
      var ready := c.previous.Some? && c.previous2.Some?;
      this.day := day;
      prev := if ready then c.previous else None;
      prev2 := if ready then c.previous2 else None;
      allowed := ready && calendarAllows;
      mr, bo, pending := None, None, None;
      mrTotal, boTotal, count, first := 0, 0, 0, 0;
      high, low, firstHigh, firstLow, longLevel, shortLevel := 0.0, 0.0, 0.0, 0.0, None, None;
      usedLong, usedShort, phase, actions := false, false, M.Flat, [];
    }

    method Act(component: M.Component, role: M.Role, side: M.Side, entryPrice: real, reason: M.Reason, time: int,
               price: real)
      modifies this`actions, this`phase
      ensures M.Stepped(Now(), actions)
           == M.Act(M.Stepped(old(Now()), old(actions)), component, role, side, entryPrice, reason, time, price)
    {
      var pnl: Option<real> := None;
      if role == M.Exit {
        var gross := if side == M.Long then price - entryPrice else entryPrice - price;
        pnl := Some(gross - if component == M.Mr then 2.0 else 0.0);
      }
      actions := actions + [M.Action(component, role, side, reason, time, price, pnl)];
      phase := if role == M.Entry then M.PendingEntry else M.PendingExit;
    }

    method MrStep(b: M.Bar)
      requires actions == []
      modifies `mr, `mrTotal, `actions, `phase
      ensures M.Stepped(Now(), actions) == M.MrStep(old(Now()), b)
    {
      if mr.Some? {
        var p := mr.value.(held := mr.value.held + 1);
        mr := Some(p);
        var isLong := p.side == M.Long;
        var stop := if isLong then p.prevClose - p.prevRange else p.prevClose + 0.75 * p.prevRange;
        var take := if isLong then p.prevClose + 0.005 * p.prevRange else p.prevClose - 0.020 * p.prevRange;
        var exit: Option<(M.Reason, real)> := None;
        if (isLong && b.l <= stop) || (!isLong && b.h >= stop) {
          exit := Some((M.Stop, stop));
        } else if (isLong && b.close > take) || (!isLong && b.close < take) {
          exit := Some((M.Take, b.close));
        } else if MinuteOfDay(b.time) >= 1200 {
          exit := Some((M.TimeExit, b.close));
        } else if p.held > 20 && ((isLong && b.h >= p.entryPrice) || (!isLong && b.l <= p.entryPrice)) {
          exit := Some((M.Breakeven, p.entryPrice));
        }
        assert exit == M.MrExit(p, b);
        if exit.Some? { Act(M.Mr, M.Exit, p.side, p.entryPrice, exit.value.0, b.time, exit.value.1); }
        return;
      }
      if mrTotal >= 2 || bo.Some? || prev.None? { return; }
      var anchor := prev.value;
      var side: Option<M.Side> := None;
      if MinuteOfDay(b.time) <= 600 && 0.005 < M.Ratio(anchor.range, anchor.low) < 0.100 {
        var diff := b.close - anchor.close;
        if 0.0 < diff < 0.20 * anchor.range {
          side := Some(M.Short);
        } else if -0.11 * anchor.range < diff < 0.0 {
          side := Some(M.Long);
        }
      }
      if side.Some? {
        mr := Some(M.MrPosition(side.value, b.time, b.close, anchor.close, anchor.range, 0));
        mrTotal := mrTotal + 1;
        Act(M.Mr, M.Entry, side.value, b.close, M.LiveEntry, b.time, b.close);
      }
    }

    method Observe(b: M.Bar)
      modifies `first, `high, `low, `firstHigh, `firstLow, `longLevel, `shortLevel, `allowed, `count
      ensures Now() == M.Observe(old(Now()), b)
    {
      ghost var s := Now();
      ObserveRange(b);
      assert Now() == s.(first := first, high := high, low := low);
      SetLevels(b);
      if count == 0 { firstHigh, firstLow := b.h, b.l; }
      count := count + 1;
    }

    method ObserveRange(b: M.Bar)
      modifies `first, `high, `low
      ensures var s := old(Now());
              Now() == s.(first := if s.count == 0 then b.time else s.first,
                          high := if s.count == 0 then b.h else Max(s.high, b.h),
                          low := if s.count == 0 then b.l else Min(s.low, b.l))
    {
      if count == 0 {
        first, high, low := b.time, b.h, b.l;
      } else {
        if b.h > high { high := b.h; }
        if b.l < low { low := b.l; }
      }
    }

    method SetLevels(b: M.Bar)
      modifies `longLevel, `shortLevel, `allowed
      ensures var s := old(Now());
              Now() == if s.count == 5 && s.prev.Some? then
                         var prev := s.prev.value;
                         s.(longLevel := Some(Max(Max(prev.close + 0.42 * prev.range, b.close), s.firstHigh)),
                            shortLevel := Some(Min(Min(prev.close - 0.42 * prev.range, b.close), s.firstLow)),
                            allowed := s.allowed && M.Abs(b.close - prev.close) <= 1.5 * prev.range)
                       else s
    {
      if count == 5 && prev.Some? {
        var c, r := prev.value.close, prev.value.range;
        longLevel := Some(Max(Max(c + 0.42 * r, b.close), firstHigh));
        shortLevel := Some(Min(Min(c - 0.42 * r, b.close), firstLow));
        if M.Abs(b.close - c) > 1.5 * r { allowed := false; }
      }
    }

    method Schedule(b: M.Bar)
      modifies this`pending
      ensures Now() == M.Schedule(old(Now()), b)
    {
      if prev.None? || prev2.None? || pending.Some? || bo.Some? || mr.Some? || !allowed
         || longLevel.None? || shortLevel.None? || MinuteOfDay(b.time) >= 1380 {
        return;
      }
      var side: Option<M.Side> := None;
      if usedLong && b.h >= high {
        side := Some(M.Long);
      } else if usedShort && b.l <= low {
        side := Some(M.Short);
      } else if M.HourCheck(Now(), b) && M.Ratio(prev.value.high, prev.value.low) > 1.01 {
        var ret := M.Ratio(prev.value.close, prev2.value.close) - 1.0;
        if ret > -0.025 && b.close > longLevel.value {
          side := Some(M.Long);
        } else if ret < 0.025 && b.close < shortLevel.value {
          side := Some(M.Short);
        }
      }
      if side.Some? { pending := Some(M.ToEnter(side.value)); }
    }

    method FillEntry(side: M.Side, b: M.Bar)
      modifies `bo, `boTotal, `usedLong, `usedShort, `actions, `phase
      ensures M.Stepped(Now(), actions) == M.FillEntry(M.Stepped(old(Now()), old(actions)), side, b)
    {
      hide M.Act, MinuteOfDay;
      if MinuteOfDay(b.time) >= 1380 || mr.Some? || bo.Some? { return; }
      bo := Some(M.BoPosition(side, b.time, b.o, 0));
      boTotal := boTotal + 1;
      if side == M.Long { usedLong := true; } else { usedShort := true; }
      Act(M.Bo, M.Entry, side, b.o, M.NextBarEntry, b.time, b.o);
    }

    method Hold(b: M.Bar)
      modifies `bo, `pending, `actions, `phase
      ensures M.Stepped(Now(), actions) == M.Hold(M.Stepped(old(Now()), old(actions)), b)
    {
      if bo.None? { return; }
      var p := bo.value.(held := bo.value.held + 1);
      bo := Some(p);
      if MinuteOfDay(b.time) >= 1380 {
        Act(M.Bo, M.Exit, p.side, p.entryPrice, M.EodClose, b.time, b.close);
      } else if prev.Some? {
        var delta := if p.side == M.Long then b.close - prev.value.close else prev.value.close - b.close;
        if delta < 0.18 * prev.value.range {
          pending := Some(M.ToExit(M.EmergencyStop));
        } else if M.HourCheck(Now(), b) && delta < 0.50 * prev.value.range {
          pending := Some(M.ToExit(M.HourStop));
        }
      }
    }

    /** Returns false where the original raises on a pending exit without a position. */
    method BoStep(b: M.Bar) returns (ok: bool)
      modifies this
      ensures match M.BoStep(old(Now()), b)
              case None => !ok
              case Some(out) => ok && Now() == out.s && actions == old(actions) + out.actions
    {
      hide M.Observe, M.Schedule, M.Hold, M.FillEntry;
      ghost var before := actions;
      Observe(b);
      if phase == M.PendingEntry || phase == M.PendingExit {
        assert before + [] == before;
        return true;
      }
      var order := pending;
      pending := None;
      ghost var cleared := Now();
      if order.Some? && order.value.ToExit? {
        if bo.None? { return false; }
        Act(M.Bo, M.Exit, bo.value.side, bo.value.entryPrice, order.value.reason, b.time, b.o);
        return true;
      }
      ghost var filled := M.Stepped(cleared, []);
      if order.Some? {
        FillEntry(order.value.side, b);
        FillFrames(cleared, before, order.value.side, b);
        filled := M.FillEntry(filled, order.value.side, b);
      }
      assert Now() == filled.s && actions == before + filled.actions;
      Hold(b);
      HoldFrames(filled, before, b);
      Schedule(b);
      ok := true;
    }

    /** Processes one bar; false where the original raises. */
    method Step(b: M.Bar) returns (ok: bool)
      modifies this
      ensures match M.Step(old(Now()), b)
              case None => !ok
              case Some(out) => ok && Now() == out.s && actions == out.actions
    {
      hide M.MrStep, M.BoStep, M.Settle;
      actions := [];
      MrStep(b);
      ok := BoStep(b);
      if ok { Settle(); }
    }

    method Settle()
      modifies `mr, `bo, `pending, `phase
      ensures Now() == M.Settle(old(Now()))
    {
      if phase == M.PendingEntry {
        phase := M.InPosition;
      } else if phase == M.PendingExit {
        mr, bo, pending, phase := None, None, None, M.Flat;
      }
    }
  }

  /** Actions already recorded do not influence how an order is filled or a position held. */
  lemma FillFrames(s: M.Session, before: seq<M.Action>, side: M.Side, b: M.Bar)
    ensures var out, plain := M.FillEntry(M.Stepped(s, before), side, b), M.FillEntry(M.Stepped(s, []), side, b);
            out.s == plain.s && out.actions == before + plain.actions
  {
  }

  lemma HoldFrames(plain: M.Stepped, before: seq<M.Action>, b: M.Bar)
    ensures var out, rest := M.Hold(M.Stepped(plain.s, before + plain.actions), b), M.Hold(plain, b);
            out.s == rest.s && out.actions == before + rest.actions
  {
  }

  // ---- The replay loop ----

  method NextCutoff(day: int) returns (cutoff: int)
    ensures cutoff == H.NextCutoff(day)
  {
    var d := day + 1;
    while Weekend(d)
      invariant H.NextWeekday(d) == H.NextWeekday(day + 1)
      decreases if Weekend(d) then 7 - Weekday(d) else 0
    {
      d := d + 1;
    }
    cutoff := H.Cutoff(d);
  }

  method ValidateStream(items: seq<H.Item>) returns (ok: bool)
    ensures ok <==> H.ValidStream(items)
  {
    for i := 0 to |items|
      invariant forall k :: 0 <= k < i ==> M.ValidBar(items[k].bar) && items[k].available >= items[k].bar.time + 600
      invariant forall j, k :: 0 <= j < k < i ==> H.Before(items[j], items[k]) && items[j].bar.time != items[k].bar.time
    {
      if !M.ValidBar(items[i].bar) || items[i].available < items[i].bar.time + 600 { return false; }
      if exists j :: 0 <= j < i && items[j].bar.time == items[i].bar.time { return false; }
      if i > 0 && !H.Before(items[i - 1], items[i]) { return false; }
      assert forall j :: 0 <= j < i - 1 ==> H.Before(items[j], items[i - 1]);
    }
    ok := true;
  }

  method WarmupFor(canonical: seq<H.Item>, day: int) returns (warmup: seq<M.Bar>)
    ensures warmup == H.Warmup(canonical, day)
  {
    warmup := [];
    for i := 0 to |canonical|
      invariant warmup == H.Warmup(canonical[..i], day)
    {
      assert canonical[..i + 1][..i] == canonical[..i];
      if canonical[i].available < H.Cutoff(day) && Day(canonical[i].bar.time) < day {
        warmup := warmup + [canonical[i].bar];
      }
    }
    assert canonical[..|canonical|] == canonical;
  }

  ghost predicate Holds(model: Reference?, m: Option<H.Model>)
    reads model
  {
    if model == null then m.None? else m == Some(H.Model(model.day, model.Now()))
  }

  lemma {:induction false} ReplayFails(cfg: H.Setup, items: seq<H.Item>, n: nat)
    requires n <= |items| && H.ReplayOf(cfg, items[..n]).Err?
    ensures H.ReplayOf(cfg, items) == H.ReplayOf(cfg, items[..n])
  {
    if n < |items| {
      assert items[..|items| - 1][..n] == items[..n];
      ReplayFails(cfg, items[..|items| - 1], n);
    } else {
      assert items[..n] == items;
    }
  }

  method ExpectedRows(cfg: H.Setup, items: seq<H.Item>) returns (r: Result<seq<H.Row>, H.Error>)
    ensures r == H.ExpectedRows(cfg, items)
  {
    hide M.Step, M.Begin, ContextOf, H.Warmup, H.RouteOf, H.Observed, H.CalendarAllows;
    var valid := ValidateStream(items);
    if !valid { return Err(H.InvalidStream); }
    var canonical: seq<H.Item>, rows: seq<H.Row> := [], [];
    var model: Reference? := null;
    ghost var m: Option<H.Model> := None;
    for i := 0 to |items|
      invariant Holds(model, m) && (model != null ==> fresh(model))
      invariant H.ReplayOf(cfg, items[..i]) == Ok(H.Replay(canonical, m, rows))
    {
      assert items[..i + 1][..i] == items[..i];
      var item := items[i];
      var day, route := Day(item.bar.time), H.RouteOf(item, cfg.policy);
      var observed := H.Observed(cfg, item);
      if observed {
        if model == null || model.day != day {
          if model != null && !H.IsFlat(model.Now()) {
            ReplayFails(cfg, items, i + 1);
            return Err(H.Unresolved);
          }
          var warmup := WarmupFor(canonical, day);
          model := new Reference(warmup, day, cfg.policy, H.CalendarAllows(cfg, day));
        }
        var ok := model.Step(item.bar);
        if !ok {
          ReplayFails(cfg, items, i + 1);
          return Err(H.PendingExitWithoutPosition);
        }
        m := Some(H.Model(day, model.Now()));
      }
      rows := rows + [H.Row(route, observed, if model == null then None else Some(model.Now()),
                            if observed then model.actions else [])];
      if route == H.ContextRoute { canonical := canonical + [item]; }
    }
    assert items[..|items|] == items;
    if model == null { return Err(H.NoObservations); }
    if !H.IsFlat(model.Now()) { return Err(H.Unresolved); }
    r := Ok(rows);
  }
}
