/** Every action and every standing order of an RI session is the one told from what came before. */
module RiForetold {
  import opened Results
  import opened Calendar
  import opened RiModel
  import opened RiSafety
  import opened RiOracle

  // ---- Longer logs ----

  lemma LongerLog(log: seq<seq<Action>>, acts: seq<Action>)
    requires |acts| <= 1
    ensures var more := log + [acts];
            && Open(more) == (if acts == [] then Open(log) else Enter(Open(log), acts[0]))
            && Age(more) == (if acts == [] then Age(log) + 1 else 0)
            && MrEntries(more) == MrEntries(log)
                                  + (if acts != [] && acts[0].component == Mr && acts[0].role == Entry then 1 else 0)
            && (forall side :: Filled(more, side) <==> Filled(log, side) || IsFill(acts, side))
  {
    var more := log + [acts];
    assert more[..|log|] == log;
    FlattenSnoc(log, acts);
    if acts == [] { assert Flatten(log) + acts == Flatten(log); }
    forall side ensures Filled(more, side) <==> Filled(log, side) || IsFill(acts, side) {
      if Filled(log, side) {
        var i :| 0 <= i < |log| && IsFill(log[i], side);
        assert IsFill(more[i], side);
      }
      if IsFill(acts, side) { assert IsFill(more[|log|], side); }
      if Filled(more, side) {
        var i :| 0 <= i < |more| && IsFill(more[i], side);
        if i < |log| { assert IsFill(log[i], side); }
      }
    }
  }

  lemma OneFill(a: Action, side: Side)
    ensures IsFill([a], side) <==> a.component == Bo && a.role == Entry && a.side == side
    ensures !IsFill([], side)
  {
    assert [a][0] == a;
  }

  // ---- The invariant ----

  /** While MR holds nothing, the pending order is the one told from the bars. */
  ghost predicate Foretold(c: Context, calendarAllows: bool, bars: seq<Bar>, s: Session, log: seq<seq<Action>>)
    requires |log| == |bars|
  {
    && (bars == [] ==> s.pending.None? && s.mr.None? && s.bo.None?)
    && (bars != [] && s.mr.None? ==>
          if s.bo.Some? then Ready(c) && s.pending == ExitOf(Stops(c, bars, s.bo.value.side))
          else s.pending == OrderOf(Wants(c, calendarAllows, bars, log)))
  }

  ghost predicate Knows(c: Context, calendarAllows: bool, bars: seq<Bar>, s: Session, log: seq<seq<Action>>) {
    && |log| == |bars| && Inv(s) && Seen(c, calendarAllows, bars, s) && Remembers(s, log)
    && Foretold(c, calendarAllows, bars, s, log)
  }

  // ---- Mean reversion ----

  lemma MrExact(c: Context, calendarAllows: bool, bars: seq<Bar>, s: Session, log: seq<seq<Action>>, b: Bar)
    requires Inv(s) && SeenLevels(c, calendarAllows, bars, s) && Remembers(s, log)
    ensures MrStep(s, b).actions == NextMr(c, log, b)
  {
    hide Open, Filled, MrEntries, Age, Permitted, MinuteOfDay;
  }

  /** The MR leg touches nothing but its own position and count, and the phase. */
  lemma MrFrame(s: Session, b: Bar)
    requires Inv(s)
    ensures var m := MrStep(s, b);
            && SameSight(s, m.s) && m.s.bo == s.bo && m.s.pending == s.pending
            && m.s.usedLong == s.usedLong && m.s.usedShort == s.usedShort
            && (m.actions == [] ==>
                  && m.s.mrTotal == s.mrTotal && m.s.phase == s.phase && (m.s.mr.Some? <==> s.mr.Some?)
                  && (s.mr.Some? ==> m.s.mr == Some(s.mr.value.(held := s.mr.value.held + 1))))
            && (m.actions != [] ==>
                  && |m.actions| == 1 && m.actions[0].component == Mr
                  && (m.actions[0].role == Entry ==>
                        && s.mr.None? && m.s.phase == PendingEntry && m.s.mrTotal == s.mrTotal + 1
                        && m.s.mr.Some? && m.s.mr.value.held == 0)
                  && (m.actions[0].role == Exit ==> m.s.phase == PendingExit && m.s.mrTotal == s.mrTotal))
  {
    hide MrExit, MrSignal;
  }

  /** Observing keeps everything but what is seen. */
  lemma ObserveFrame(s: Session, b: Bar)
    ensures var o := Observe(s, b);
            && o.mr == s.mr && o.bo == s.bo && o.pending == s.pending && o.mrTotal == s.mrTotal
            && o.usedLong == s.usedLong && o.usedShort == s.usedShort && o.phase == s.phase && o.boTotal == s.boTotal
  {
  }

  lemma ObserveSeen(c: Context, calendarAllows: bool, bars: seq<Bar>, s: Session, t: Session, b: Bar)
    requires Seen(c, calendarAllows, bars, s) && SameSight(s, t)
    ensures Seen(c, calendarAllows, bars + [b], Observe(t, b))
  {
    SeenSame(c, calendarAllows, bars, s, t);
    hide SeenBars, SeenLevels;
    ObserveBars(bars, t, b);
    ObserveLevels(c, calendarAllows, bars, t, b);
  }

  lemma MrActsStep(s: Session, b: Bar)
    requires Inv(s) && MrStep(s, b).actions != []
    ensures var m := MrStep(s, b); Step(s, b) == Some(Stepped(Settle(Observe(m.s, b)), m.actions))
  {
    MrFrame(s, b);
    hide MrStep, Observe;
    var m := MrStep(s, b);
    ObserveFrame(m.s, b);
    assert m.actions + [] == m.actions;
  }

  lemma NoOrderAfterAction(c: Context, calendarAllows: bool, bars: seq<Bar>, log: seq<seq<Action>>)
    requires bars != [] && |log| == |bars| && log[|log| - 1] != []
    ensures Wants(c, calendarAllows, bars, log) == None
  {
  }

  lemma SettleFrame(o: Session)
    ensures SameSight(o, Settle(o)) && Settle(o).mrTotal == o.mrTotal
    ensures Settle(o).usedLong == o.usedLong && Settle(o).usedShort == o.usedShort
    ensures o.phase == PendingExit ==> Settle(o).mr.None? && Settle(o).bo.None? && Settle(o).pending.None?
    ensures o.phase != PendingExit ==> Settle(o) == o.(phase := Settle(o).phase)
  {
  }

  /** A bar on which MR acts. */
  lemma MrActs(c: Context, calendarAllows: bool, bars: seq<Bar>, s: Session, log: seq<seq<Action>>, b: Bar)
    requires Knows(c, calendarAllows, bars, s, log) && MrStep(s, b).actions != []
    ensures Step(s, b).Some?
    ensures var out := Step(s, b).value;
            && out.actions == NextMr(c, log, b)
            && Knows(c, calendarAllows, bars + [b], out.s, log + [out.actions])
  {
    hide MrStep, Observe, Inv, Open, Filled, MrEntries, Age, SeenBars, SeenLevels, NextMr, IsFill, Step, Settle, Wants;
    hide Position, Stops;
    MrExact(c, calendarAllows, bars, s, log, b);
    MrFrame(s, b);
    StepKeeps(s, b);
    MrActsStep(s, b);
    var m := MrStep(s, b);
    var o, a := Observe(m.s, b), m.actions[0];
    ObserveFrame(m.s, b);
    ObserveSeen(c, calendarAllows, bars, s, m.s, b);
    SettleFrame(o);
    SeenSame(c, calendarAllows, bars + [b], o, Settle(o));
    assert m.actions == [a];
    LongerLog(log, [a]);
    OneFill(a, Long);
    OneFill(a, Short);
    assert (log + [[a]])[|log|] == [a];
    NoOrderAfterAction(c, calendarAllows, bars + [b], log + [[a]]);
  }

  // ---- Breakout ----

  /** The state before the breakout leg, on a bar on which MR did not act. */
  ghost predicate Quiet(c: Context, calendarAllows: bool, bars: seq<Bar>, s: Session, m: Session,
                        log: seq<seq<Action>>, b: Bar) {
    && Knows(c, calendarAllows, bars, s, log) && MrStep(s, b) == Stepped(m, [])
  }

  /** The breakout leg after it has observed the bar. */
  lemma AfterObserve(c: Context, calendarAllows: bool, bars: seq<Bar>, s: Session, m: Session, log: seq<seq<Action>>,
                     b: Bar)
    requires Quiet(c, calendarAllows, bars, s, m, log, b)
    ensures var o := Observe(m, b);
            && Inv(o) && Seen(c, calendarAllows, bars + [b], o)
            && o.bo == s.bo && o.pending == s.pending && o.mrTotal == s.mrTotal
            && o.usedLong == s.usedLong && o.usedShort == s.usedShort && o.phase == s.phase
            && (o.mr.Some? <==> s.mr.Some?)
            && (s.mr.Some? ==> o.mr == Some(s.mr.value.(held := s.mr.value.held + 1)))
            && Position(o) == Position(s)
  {
    MrFrame(s, b);
    MrStepKeeps(s, b);
    ObserveFrame(m, b);
    ObserveSeen(c, calendarAllows, bars, s, m, b);
    ObserveKeeps(m, b);
  }

  /** Nothing happens while MR holds its position. */
  lemma WhileMr(c: Context, calendarAllows: bool, bars: seq<Bar>, s: Session, m: Session, log: seq<seq<Action>>, b: Bar)
    requires Quiet(c, calendarAllows, bars, s, m, log, b) && s.mr.Some?
    ensures Step(s, b).Some?
    ensures var out := Step(s, b).value;
            && out.actions == [] == NextBo(c, calendarAllows, bars, log, b)
            && Knows(c, calendarAllows, bars + [b], out.s, log + [[]])
  {
    AfterObserve(c, calendarAllows, bars, s, m, log, b);
    StepKeeps(s, b);
    var o := Observe(m, b);
    LongerLog(log, []);
    OneFill(Action(Mr, Entry, Long, Stop, 0, 0.0, None), Long);
    OneFill(Action(Mr, Entry, Long, Stop, 0, 0.0, None), Short);
    hide MrStep, Observe, Open, Filled, MrEntries, Age, SeenBars, SeenLevels, IsFill, Inv;
    MrAlone(o, b);
    SeenSame(c, calendarAllows, bars + [b], o, o.(pending := None));
  }

  /** With an MR position there is no breakout to fill, hold or order. */
  lemma MrAlone(o: Session, b: Bar)
    requires Inv(o) && o.mr.Some?
    ensures o.bo.None? && o.phase == InPosition && !(o.pending.Some? && o.pending.value.ToExit?)
    ensures var cleared := Stepped(o.(pending := None), []);
            && Hold(cleared, b) == cleared && Schedule(cleared.s, b) == cleared.s
            && forall side :: FillEntry(cleared, side, b) == cleared
  {
  }

  /** A breached stop is executed at the open. */
  lemma StopExecuted(c: Context, calendarAllows: bool, bars: seq<Bar>, s: Session, m: Session, log: seq<seq<Action>>,
                     b: Bar)
    requires Quiet(c, calendarAllows, bars, s, m, log, b) && s.bo.Some? && s.pending.Some?
    ensures Step(s, b).Some?
    ensures var out := Step(s, b).value;
            && out.actions == NextBo(c, calendarAllows, bars, log, b) && |out.actions| == 1
            && Knows(c, calendarAllows, bars + [b], out.s, log + [out.actions])
  {
    hide MrStep, Observe, Open, Filled, MrEntries, Age, SeenBars, SeenLevels, IsFill, Wants, Stops, Permitted;
    AfterObserve(c, calendarAllows, bars, s, m, log, b);
    HeldBo(c, calendarAllows, bars, s, log);
    StepKeeps(s, b);
    var o := Observe(m, b);
    var out := Step(s, b).value;
    var a := out.actions[0];
    assert out.actions == [a];
    hide Inv, Step;
    SeenSame(c, calendarAllows, bars + [b], o, out.s);
    LongerLog(log, [a]);
    OneFill(a, Long);
    OneFill(a, Short);
    assert (log + [[a]])[|log|] == [a];
    NoOrderAfterAction(c, calendarAllows, bars + [b], log + [[a]]);
  }

  lemma HeldBo(c: Context, calendarAllows: bool, bars: seq<Bar>, s: Session, log: seq<seq<Action>>)
    requires Knows(c, calendarAllows, bars, s, log) && s.bo.Some?
    ensures s.mr.None? && bars != [] && Ready(c) && s.pending == ExitOf(Stops(c, bars, s.bo.value.side))
    ensures Open(log) == Holding(Bo, s.bo.value.side, s.bo.value.entryPrice)
  {
  }

  /** Holding a breakout position on a bar: the close from 23:00, else perhaps a stop for the next open. */
  lemma HoldExact(c: Context, calendarAllows: bool, bars: seq<Bar>, o: Session, out: Stepped)
    requires bars != [] && Seen(c, calendarAllows, bars, o) && o.bo.Some? && Ready(c) && o.pending.None? && out.s == o
    ensures var b, p := bars[|bars| - 1], o.bo.value;
            var held := Hold(out, b);
            && SameSight(o, held.s) && held.s.mr == o.mr && held.s.mrTotal == o.mrTotal
            && held.s.usedLong == o.usedLong && held.s.usedShort == o.usedShort
            && held.s.bo == Some(p.(held := p.held + 1)) && Schedule(held.s, b) == held.s
            && if MinuteOfDay(b.time) >= 1380 then
                 held.s.phase == PendingExit
                 && held.actions == out.actions + [Action(Bo, Exit, p.side, EodClose, b.time, b.close,
                                                          Some(Gain(p.side, p.entryPrice, b.close)))]
               else
                 held.s.phase == o.phase && held.actions == out.actions
                 && held.s.pending == ExitOf(Stops(c, bars, p.side))
  {
    StopsExact(c, calendarAllows, bars, o, out);
    hide HourCheck, Stops, MinuteOfDay, SeenBars, Permitted;
  }

  lemma BoHeldStep(c: Context, calendarAllows: bool, bars: seq<Bar>, s: Session, m: Session, log: seq<seq<Action>>,
                   b: Bar)
    requires Quiet(c, calendarAllows, bars, s, m, log, b) && s.bo.Some? && s.pending.None?
    ensures var o := Observe(m, b);
            var held := Hold(Stepped(o, []), b);
            && o.bo == s.bo && o.pending.None? && Seen(c, calendarAllows, bars + [b], o) && Ready(c)
            && Schedule(held.s, b) == held.s && Step(s, b) == Some(Stepped(Settle(held.s), held.actions))
  {
    AfterObserve(c, calendarAllows, bars, s, m, log, b);
    HeldBo(c, calendarAllows, bars, s, log);
    InPositionPhase(s);
    hide MrStep, Observe, Open, Filled, MrEntries, Age, SeenBars, SeenLevels, Wants, Stops, Hold, Schedule, Inv,
        FillEntry;
    hide MinuteOfDay, Permitted;
    var o := Observe(m, b);
    HoldExact(c, calendarAllows, bars + [b], o, Stepped(o, []));
    var held := Hold(Stepped(o, []), b);
    assert o.(pending := None) == o;
    assert BoStep(m, b) == Some(Stepped(held.s, held.actions));
    assert [] + held.actions == held.actions;
  }

  /** What is left to know once the action and the new state are known. */
  lemma Conclude(c: Context, calendarAllows: bool, bars: seq<Bar>, s: Session, log: seq<seq<Action>>, b: Bar,
                 t: Session, out: Stepped)
    requires Knows(c, calendarAllows, bars, s, log) && Step(s, b) == Some(out) && out.s == Settle(t)
    requires Seen(c, calendarAllows, bars + [b], t) && t.mr.None?
    requires t.mrTotal == s.mrTotal && forall a :: a in out.actions ==> a.component == Bo
    requires t.usedLong == (s.usedLong || IsFill(out.actions, Long))
    requires t.usedShort == (s.usedShort || IsFill(out.actions, Short))
    requires Foretold(c, calendarAllows, bars + [b], Settle(t), log + [out.actions])
    ensures Knows(c, calendarAllows, bars + [b], out.s, log + [out.actions])
  {
    StepKeeps(s, b);
    hide Step, Inv, Open, Filled, MrEntries, Age, Foretold, Settle, IsFill, SeenBars, SeenLevels;
    SettleFrame(t);
    SeenSame(c, calendarAllows, bars + [b], t, out.s);
    LongerLog(log, out.actions);
    assert out.actions != [] ==> out.actions[0] in out.actions;
    SettledMr(t);
  }

  lemma SettledMr(t: Session)
    requires t.mr.None?
    ensures Settle(t).mr.None?
  {
  }

  /** A bar on which a breakout position is held and no stop was breached before. */
  lemma BoHeld(c: Context, calendarAllows: bool, bars: seq<Bar>, s: Session, m: Session, log: seq<seq<Action>>, b: Bar)
    requires Quiet(c, calendarAllows, bars, s, m, log, b) && s.bo.Some? && s.pending.None?
    ensures Step(s, b).Some?
    ensures var out := Step(s, b).value;
            && out.actions == NextBo(c, calendarAllows, bars, log, b) && |out.actions| <= 1
            && Knows(c, calendarAllows, bars + [b], out.s, log + [out.actions])
  {
    AfterObserve(c, calendarAllows, bars, s, m, log, b);
    HeldBo(c, calendarAllows, bars, s, log);
    hide MrStep, Observe, Open, Filled, MrEntries, Age, SeenBars, SeenLevels, IsFill, Wants, Stops, Permitted, Hold;
    hide Schedule, Inv, FillEntry, MinuteOfDay, Step, BoStep;
    BoHeldStep(c, calendarAllows, bars, s, m, log, b);
    var more := bars + [b];
    var o := Observe(m, b);
    HoldExact(c, calendarAllows, more, o, Stepped(o, []));
    var held := Hold(Stepped(o, []), b);
    var out := Step(s, b).value;
    SeenSame(c, calendarAllows, more, o, held.s);
    if MinuteOfDay(b.time) >= 1380 {
      var a := out.actions[0];
      assert out.actions == [a] && (log + [[a]])[|log|] == [a];
      OneFill(a, Long);
      OneFill(a, Short);
      NoOrderAfterAction(c, calendarAllows, more, log + [[a]]);
    } else {
      OneFill(Action(Mr, Entry, Long, Stop, 0, 0.0, None), Long);
      OneFill(Action(Mr, Entry, Long, Stop, 0, 0.0, None), Short);
    }
    SettleFrame(held.s);
    Conclude(c, calendarAllows, bars, s, log, b, held.s, out);
  }

  lemma InPositionPhase(s: Session)
    requires Inv(s)
    ensures s.mr.Some? || s.bo.Some? ==> s.phase == InPosition
    ensures s.mr.None? && s.bo.None? ==> s.phase == Flat && Position(s) == Idle
  {
  }

  // ---- Flat ----

  lemma NothingHeld(c: Context, calendarAllows: bool, bars: seq<Bar>, s: Session, log: seq<seq<Action>>)
    requires Knows(c, calendarAllows, bars, s, log) && s.mr.None? && s.bo.None?
    ensures Open(log) == Idle && s.phase == Flat
    ensures s.pending == if bars == [] then None else OrderOf(Wants(c, calendarAllows, bars, log))
  {
    InPositionPhase(s);
  }

  /** An order is filled at the open before 23:00. */
  lemma OrderFilled(c: Context, calendarAllows: bool, bars: seq<Bar>, s: Session, m: Session, log: seq<seq<Action>>,
                    b: Bar, side: Side)
    requires Quiet(c, calendarAllows, bars, s, m, log, b) && s.mr.None? && s.bo.None?
        && s.pending == Some(ToEnter(side))
    requires MinuteOfDay(b.time) < 1380
    ensures Step(s, b).Some?
    ensures var out := Step(s, b).value;
            && out.actions == NextBo(c, calendarAllows, bars, log, b) && |out.actions| == 1
            && Knows(c, calendarAllows, bars + [b], out.s, log + [out.actions])
  {
    AfterObserve(c, calendarAllows, bars, s, m, log, b);
    NothingHeld(c, calendarAllows, bars, s, log);
    hide MrStep, Observe, Open, Filled, MrEntries, Age, SeenBars, SeenLevels, IsFill, Wants, Stops, Permitted, Hold;
    hide Schedule, Inv, MinuteOfDay;
    var more := bars + [b];
    var o := Observe(m, b);
    var filled := FillEntry(Stepped(o.(pending := None), []), side, b);
    var a := Action(Bo, Entry, side, NextBarEntry, b.time, b.o, None);
    assert filled.actions == [a];
    SeenSame(c, calendarAllows, more, o, filled.s);
    HoldExact(c, calendarAllows, more, filled.s, filled);
    var held := Hold(filled, b);
    assert BoStep(m, b) == Some(Stepped(held.s, held.actions));
    assert [] + held.actions == held.actions;
    var out := Step(s, b).value;
    assert out == Stepped(Settle(held.s), [a]);
    SeenSame(c, calendarAllows, more, filled.s, held.s);
    OneFill(a, Long);
    OneFill(a, Short);
    hide Step, BoStep, FillEntry;
    Conclude(c, calendarAllows, bars, s, log, b, held.s, out);
  }

  lemma MayOrderStep(s: Session, m: Session, b: Bar)
    requires m.pending.None? || MinuteOfDay(b.time) >= 1380
    requires MrStep(s, b) == Stepped(m, [])
    requires m.mr.None? && m.bo.None? && m.phase == Flat && !(m.pending.Some? && m.pending.value.ToExit?)
    ensures Step(s, b) == Some(Stepped(Settle(Schedule(Observe(m, b).(pending := None), b)), []))
  {
    ObserveFrame(m, b);
    hide MrStep, Observe, Schedule, MinuteOfDay;
    var o := Observe(m, b).(pending := None);
    assert Hold(Stepped(o, []), b) == Stepped(o, []);
    assert BoStep(m, b) == Some(Stepped(Schedule(o, b), []));
    var none: seq<Action> := [];
    assert none + none == none;
  }

  lemma NothingNext(c: Context, calendarAllows: bool, bars: seq<Bar>, s: Session, log: seq<seq<Action>>, b: Bar)
    requires Knows(c, calendarAllows, bars, s, log) && s.mr.None? && s.bo.None?
    requires s.pending.None? || MinuteOfDay(b.time) >= 1380
    ensures NextBo(c, calendarAllows, bars, log, b) == []
  {
    NothingHeld(c, calendarAllows, bars, s, log);
    hide Open, Wants, MinuteOfDay;
  }

  /** A quiet bar with nothing open leaves the order told from the bars. */
  lemma OrderLeft(c: Context, calendarAllows: bool, bars: seq<Bar>, s: Session, o: Session, log: seq<seq<Action>>,
                  b: Bar)
    requires |log| == |bars| && Seen(c, calendarAllows, bars + [b], o) && Open(log) == Idle
    requires o.mr.None? && o.bo.None? && o.pending.None?
    requires o.usedLong == Filled(log, Long) && o.usedShort == Filled(log, Short)
    ensures var t := Schedule(o, b);
            && t == o.(pending := t.pending) && Seen(c, calendarAllows, bars + [b], t)
            && Foretold(c, calendarAllows, bars + [b], t, log + [[]])
  {
    hide Schedule, Open, Filled, SeenBars, SeenLevels, Wants, IsFill;
    ScheduleFrame(o, b);
    SeenSame(c, calendarAllows, bars + [b], o, Schedule(o, b));
    LongerLog(log, []);
    OneFill(Action(Mr, Entry, Long, Stop, 0, 0.0, None), Long);
    OneFill(Action(Mr, Entry, Long, Stop, 0, 0.0, None), Short);
    assert (log + [[]])[|log|] == [] && (bars + [b])[|bars|] == b;
    SignalExact(c, calendarAllows, bars + [b], o, log + [[]]);
  }

  /** With nothing open and nothing to fill, the bar may leave an order. */
  lemma MayOrder(c: Context, calendarAllows: bool, bars: seq<Bar>, s: Session, m: Session, log: seq<seq<Action>>,
                 b: Bar)
    requires Quiet(c, calendarAllows, bars, s, m, log, b) && s.mr.None? && s.bo.None?
    requires s.pending.None? || MinuteOfDay(b.time) >= 1380
    ensures Step(s, b).Some?
    ensures var out := Step(s, b).value;
            && out.actions == [] == NextBo(c, calendarAllows, bars, log, b)
            && Knows(c, calendarAllows, bars + [b], out.s, log + [[]])
  {
    hide MrStep, Observe, Open, Filled, MrEntries, Age, SeenBars, SeenLevels, IsFill, Wants, Stops, Permitted;
    hide Schedule, Inv, MinuteOfDay, Step, Foretold, NextBo, Position;
    AfterObserve(c, calendarAllows, bars, s, m, log, b);
    NothingHeld(c, calendarAllows, bars, s, log);
    NothingNext(c, calendarAllows, bars, s, log, b);
    QuietPending(c, calendarAllows, bars, s, m, log, b);
    MayOrderStep(s, m, b);
    var o := Observe(m, b).(pending := None);
    SeenSame(c, calendarAllows, bars + [b], Observe(m, b), o);
    OrderLeft(c, calendarAllows, bars, s, o, log, b);
    var t := Schedule(o, b);
    UnlessOrdered(t);
    OneFill(Action(Mr, Entry, Long, Stop, 0, 0.0, None), Long);
    OneFill(Action(Mr, Entry, Long, Stop, 0, 0.0, None), Short);
    Conclude(c, calendarAllows, bars, s, log, b, t, Stepped(t, []));
  }

  lemma QuietPending(c: Context, calendarAllows: bool, bars: seq<Bar>, s: Session, m: Session, log: seq<seq<Action>>,
                     b: Bar)
    requires Quiet(c, calendarAllows, bars, s, m, log, b)
    ensures m.bo == s.bo && m.pending == s.pending && m.phase == s.phase && (m.mr.Some? <==> s.mr.Some?)
    ensures s.bo.None? ==> !(s.pending.Some? && s.pending.value.ToExit?)
  {
    MrFrame(s, b);
  }

  lemma UnlessOrdered(t: Session)
    requires t.phase == Flat
    ensures Settle(t) == t
  {
  }

  lemma ScheduleFrame(o: Session, b: Bar)
    ensures Schedule(o, b) == o.(pending := Schedule(o, b).pending)
  {
  }

  // ---- Every bar ----

  lemma QuietBar(c: Context, calendarAllows: bool, bars: seq<Bar>, s: Session, m: Session, log: seq<seq<Action>>,
                 b: Bar)
    requires Quiet(c, calendarAllows, bars, s, m, log, b)
    ensures Step(s, b).Some?
    ensures var out := Step(s, b).value;
            && out.actions == NextBo(c, calendarAllows, bars, log, b)
            && Knows(c, calendarAllows, bars + [b], out.s, log + [out.actions])
  {
    hide Step, Seen, Remembers, NextBo, MinuteOfDay, Stops, Wants;
    if s.mr.Some? {
      WhileMr(c, calendarAllows, bars, s, m, log, b);
    } else if s.bo.Some? {
      if s.pending.Some? {
        StopExecuted(c, calendarAllows, bars, s, m, log, b);
      } else {
        BoHeld(c, calendarAllows, bars, s, m, log, b);
      }
    } else if s.pending.Some? && MinuteOfDay(b.time) < 1380 {
      QuietPending(c, calendarAllows, bars, s, m, log, b);
      OrderFilled(c, calendarAllows, bars, s, m, log, b, s.pending.value.side);
    } else {
      MayOrder(c, calendarAllows, bars, s, m, log, b);
    }
  }

  lemma NextBar(c: Context, calendarAllows: bool, bars: seq<Bar>, s: Session, log: seq<seq<Action>>, b: Bar)
    requires Knows(c, calendarAllows, bars, s, log)
    ensures Step(s, b).Some?
    ensures var out := Step(s, b).value;
            && out.actions == Next(c, calendarAllows, bars, log, b)
            && Knows(c, calendarAllows, bars + [b], out.s, log + [out.actions])
  {
    MrExact(c, calendarAllows, bars, s, log, b);
    hide Step, Seen, Remembers, Foretold, NextBo, NextMr, MrStep;
    if MrStep(s, b).actions != [] {
      MrActs(c, calendarAllows, bars, s, log, b);
    } else {
      QuietBar(c, calendarAllows, bars, s, MrStep(s, b).s, log, b);
    }
  }

  lemma NothingYet(c: Context, calendarAllows: bool)
    ensures Knows(c, calendarAllows, [], Begin(c, calendarAllows), [])
  {
    BeginGood(c, calendarAllows);
  }

  /** The whole session, bar by bar: what is done on each bar is what is told from the context, the calendar, the bars
      before it and the actions before it. */
  lemma {:induction false} SessionForetold(c: Context, calendarAllows: bool, bars: seq<Bar>)
    ensures var p := Play(Begin(c, calendarAllows), bars);
            && p.Some? && Knows(c, calendarAllows, bars, p.value.s, p.value.log)
            && forall i :: 0 <= i < |bars| ==>
                 p.value.log[i] == Next(c, calendarAllows, bars[..i], p.value.log[..i], bars[i])
  {
    hide Knows, Step, Next;
    if bars == [] {
      NothingYet(c, calendarAllows);
    } else {
      var n := |bars| - 1;
      SessionForetold(c, calendarAllows, bars[..n]);
      var before := Play(Begin(c, calendarAllows), bars[..n]).value;
      KnowsLength(c, calendarAllows, bars[..n], before.s, before.log);
      NextBar(c, calendarAllows, bars[..n], before.s, before.log, bars[n]);
      var out := Step(before.s, bars[n]).value;
      assert bars[..n] + [bars[n]] == bars;
      forall i | 0 <= i < |bars|
        ensures (before.log + [out.actions])[i]
             == Next(c, calendarAllows, bars[..i], (before.log + [out.actions])[..i], bars[i])
      {
        if i < n {
          assert bars[..n][..i] == bars[..i] && (before.log + [out.actions])[..i] == before.log[..i];
        } else {
          assert (before.log + [out.actions])[..n] == before.log;
        }
      }
    }
  }

  lemma KnowsLength(c: Context, calendarAllows: bool, bars: seq<Bar>, s: Session, log: seq<seq<Action>>)
    requires Knows(c, calendarAllows, bars, s, log)
    ensures |log| == |bars|
  {
  }

  /** An order to enter stands after a bar, in this direction, if and only if it is told from the bars and the actions
      so far; only while MR holds the position may an older one linger, and that one is never filled. */
  lemma OrdersExactly(c: Context, calendarAllows: bool, bars: seq<Bar>, side: Side)
    requires bars != []
    ensures Play(Begin(c, calendarAllows), bars).Some?
    ensures var p := Play(Begin(c, calendarAllows), bars).value;
            && |p.log| == |bars|
            && (p.s.mr.None? ==> (p.s.pending == Some(ToEnter(side))
                <==> Wants(c, calendarAllows, bars, p.log) == Some(side)))
  {
    hide Play, Wants, Stops, Inv, Seen, Remembers;
    SessionForetold(c, calendarAllows, bars);
    var p := Play(Begin(c, calendarAllows), bars).value;
    if p.s.mr.None? && p.s.bo.Some? { HeldWantsNothing(c, calendarAllows, bars, p.s, p.log); }
  }

  lemma HeldWantsNothing(c: Context, calendarAllows: bool, bars: seq<Bar>, s: Session, log: seq<seq<Action>>)
    requires bars != [] && Knows(c, calendarAllows, bars, s, log) && s.bo.Some?
    ensures Wants(c, calendarAllows, bars, log) == None
  {
    HeldBo(c, calendarAllows, bars, s, log);
  }
}
