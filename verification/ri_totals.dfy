/** The counters that a session reports for its breakout leg, told from its actions. */
module RiTotals {
  import opened Results
  import opened Calendar
  import opened RiModel
  import opened RiSafety
  import opened RiOracle

  // ---- Fills ----

  /** How many bars filled a breakout order. */
  function Fills(log: seq<seq<Action>>): nat {
    if log == [] then 0 else
      var last := log[|log| - 1];
      Fills(log[..|log| - 1]) + if IsFill(last, Long) || IsFill(last, Short) then 1 else 0
  }

  predicate NoFill(acts: seq<Action>) { forall k :: 0 <= k < |acts| ==> acts[k].role == Exit }

  lemma HoldTotal(out: Stepped, b: Bar)
    requires NoFill(out.actions) || MinuteOfDay(b.time) < ELEVEN_PM
    ensures var held := Hold(out, b);
            && held.s.boTotal == out.s.boTotal
            && (NoFill(out.actions) ==> NoFill(held.actions))
            && (!NoFill(out.actions) ==> held.actions == out.actions)
  {
  }

  lemma FillTotal(out: Stepped, side: Side, b: Bar)
    requires out.actions == []
    ensures var filled := FillEntry(out, side, b);
            || filled == out
            || (IsFill(filled.actions, side) && filled.s.boTotal == out.s.boTotal + 1
                && MinuteOfDay(b.time) < ELEVEN_PM)
  {
    var filled := FillEntry(out, side, b);
    if filled != out { assert filled.actions[0].component == Bo && filled.actions[0].side == side; }
  }

  lemma BoTotalStep(s: Session, b: Bar)
    requires BoStep(s, b).Some?
    ensures var out := BoStep(s, b).value;
            out.s.boTotal == s.boTotal + if IsFill(out.actions, Long) || IsFill(out.actions, Short) then 1 else 0
  {
    hide Hold, HourCheck, MaySchedule, BoSignal, FillEntry;
    var s0 := Observe(s, b);
    assert s0.boTotal == s.boTotal;
    var cleared := Stepped(s0.(pending := None), []);
    HoldTotal(cleared, b);
    if s0.pending.Some? && s0.pending.value.ToEnter? {
      var side := s0.pending.value.side;
      FillTotal(cleared, side, b);
      HoldTotal(FillEntry(cleared, side, b), b);
    }
  }

  /** The breakout total of a session is the number of its fills. */
  lemma {:induction false} FillsCounted(c: Context, calendarAllows: bool, bars: seq<Bar>)
    ensures var p := Play(Begin(c, calendarAllows), bars);
            p.Some? && p.value.s.boTotal == Fills(p.value.log)
  {
    hide Step, Inv, IsFill;
    BeginGood(c, calendarAllows);
    PlayKeeps(Begin(c, calendarAllows), bars);
    if bars != [] {
      var n := |bars| - 1;
      FillsCounted(c, calendarAllows, bars[..n]);
      PlayKeeps(Begin(c, calendarAllows), bars[..n]);
      StepTotal(Play(Begin(c, calendarAllows), bars[..n]).value.s, bars[n]);
    }
  }

  lemma StepTotal(s: Session, b: Bar)
    requires Inv(s)
    ensures Step(s, b).Some?
    ensures var out := Step(s, b).value;
            out.s.boTotal == s.boTotal + if IsFill(out.actions, Long) || IsFill(out.actions, Short) then 1 else 0
  {
    hide MrStep, BoStep, Observe, MrMatches, IsFill, Enter, Position, Core;
    StepKeeps(s, b);
    MrStepKeeps(s, b);
    MrLeavesBo(s, b);
    var m := MrStep(s, b);
    if m.actions == [] {
      BoTotalStep(m.s, b);
      assert [] + BoStep(m.s, b).value.actions == BoStep(m.s, b).value.actions;
    } else {
      BoWaits(m.s, b);
      assert m.actions + [] == m.actions;
    }
  }

  lemma MrLeavesBo(s: Session, b: Bar)
    ensures var m := MrStep(s, b);
            m.s.bo == s.bo && m.s.boTotal == s.boTotal && !IsFill(m.actions, Long) && !IsFill(m.actions, Short)
  {
  }

  lemma BoWaits(s: Session, b: Bar)
    requires s.phase == PendingEntry || s.phase == PendingExit
    ensures var o := Observe(s, b);
            BoStep(s, b) == Some(Stepped(o, [])) && o.bo == s.bo && o.boTotal == s.boTotal
  {
  }

  // ---- Age ----

  /** Held one bar longer without an action, or filled on this bar, or given back. */
  predicate Aged(s: Session, out: Stepped) {
    out.s.bo.Some? && out.s.phase != PendingExit ==>
      if out.actions == [] then s.bo.Some? && out.s.bo.value.held == s.bo.value.held + 1
      else out.s.bo.value.held == 1
  }

  lemma HoldAges(out: Stepped, b: Bar)
    requires out.s.phase != PendingExit
    ensures var held := Hold(out, b);
            && (held.s.bo.Some? ==> out.s.bo.Some? && held.s.bo.value.held == out.s.bo.value.held + 1)
            && (held.s.phase != PendingExit ==> held.actions == out.actions)
            && (held.s.phase == PendingExit || held.s.phase == out.s.phase)
  {
  }

  lemma BoStepAges(s: Session, b: Bar)
    requires s.phase == Flat || s.phase == InPosition
    requires BoStep(s, b).Some?
    ensures Aged(s, BoStep(s, b).value)
  {
    hide Hold, HourCheck, MaySchedule, BoSignal;
    var s0 := Observe(s, b);
    assert s0.bo == s.bo && s0.phase == s.phase;
    var cleared := Stepped(s0.(pending := None), []);
    HoldAges(cleared, b);
    if s0.pending.Some? && s0.pending.value.ToEnter? {
      var filled := FillEntry(cleared, s0.pending.value.side, b);
      assert filled == cleared
        || (filled.s.bo.value.held == 0 && filled.actions != [] && filled.s.phase == PendingEntry);
      HoldAges(filled, b);
    }
  }

  lemma StepHeld(s: Session, b: Bar)
    requires Inv(s)
    ensures Step(s, b).Some?
    ensures Aged(s, Step(s, b).value)
  {
    hide MrStep, BoStep, Observe, MrMatches;
    StepKeeps(s, b);
    MrStepKeeps(s, b);
    var m := MrStep(s, b);
    if m.actions == [] {
      BoStepAges(m.s, b);
      assert [] + BoStep(m.s, b).value.actions == BoStep(m.s, b).value.actions;
      MrLeavesBo(s, b);
    } else {
      BoWaits(m.s, b);
    }
  }

  /** While a breakout is held its age is the number of bars since its fill, that bar included. */
  lemma {:induction false} HeldCounted(c: Context, calendarAllows: bool, bars: seq<Bar>)
    ensures var p := Play(Begin(c, calendarAllows), bars);
            p.Some? && (p.value.s.bo.Some? ==> p.value.s.bo.value.held == Age(p.value.log) + 1)
  {
    hide Step, Inv;
    BeginGood(c, calendarAllows);
    PlayKeeps(Begin(c, calendarAllows), bars);
    if bars != [] {
      var n := |bars| - 1;
      HeldCounted(c, calendarAllows, bars[..n]);
      PlayKeeps(Begin(c, calendarAllows), bars[..n]);
      StepHeld(Play(Begin(c, calendarAllows), bars[..n]).value.s, bars[n]);
    }
  }
}
