/** Safety of the RI session machine over every sequence of bars. */
module RiSafety {
  import opened Results
  import opened Calendar
  import opened RiModel

  // ---- The ledger: an independent reading of the action stream ----

  datatype Book = Idle | Holding(component: Component, side: Side, price: real) | Broken

  function Enter(book: Book, a: Action): Book {
    match (book, a.role)
    case (Idle, Entry) => Holding(a.component, a.side, a.price)
    case (Holding(c, side, _), Exit) => if a.component == c && a.side == side then Idle else Broken
    case _ => Broken
  }

  /** The position left open by an action stream; `Broken` unless entries and exits alternate and match. */
  function Ledger(actions: seq<Action>): Book {
    if actions == [] then Idle else Enter(Ledger(actions[..|actions| - 1]), actions[|actions| - 1])
  }

  function Position(s: Session): Book {
    if s.mr.Some? then Holding(Mr, s.mr.value.side, s.mr.value.entryPrice)
    else if s.bo.Some? then Holding(Bo, s.bo.value.side, s.bo.value.entryPrice)
    else Idle
  }

  // ---- The invariant at step boundaries ----

  predicate MrMatches(prev: Anchor, p: MrPosition) {
    var diff := p.entryPrice - prev.close;
    && p.prevClose == prev.close && p.prevRange == prev.range
    && (p.side == Long ==> -0.11 * prev.range < diff < 0.0)
    && (p.side == Short ==> 0.0 < diff < 0.20 * prev.range)
  }

  predicate Inv(s: Session) {
    Core(s) && s.phase == if s.mr.Some? || s.bo.Some? then InPosition else Flat
  }

  /** The part of the invariant that also holds between the two legs of one bar. */
  predicate Core(s: Session) {
    && !(s.mr.Some? && s.bo.Some?)
    && s.mrTotal <= 2
    && (s.pending.Some? && s.pending.value.ToExit? ==>
         s.bo.Some? && s.pending.value.reason in {EmergencyStop, HourStop})
    && (s.pending.Some? && s.pending.value.ToEnter? ==> s.bo.None?)
    && (s.prev.Some? <==> s.prev2.Some?)
    && (s.bo.Some? ==> s.prev.Some?)
    && (s.pending.Some? ==> s.prev.Some?)
    && (s.mr.Some? ==> s.prev.Some? && s.mrTotal >= 1 && MrMatches(s.prev.value, s.mr.value))
    && (s.longLevel.Some? <==> s.prev.Some? && s.count >= 6)
    && (s.shortLevel.Some? <==> s.longLevel.Some?)
  }

  lemma BeginGood(context: Context, calendarAllows: bool)
    ensures Inv(Begin(context, calendarAllows)) && Position(Begin(context, calendarAllows)) == Idle
  {
  }

  lemma MrStepKeeps(s: Session, b: Bar)
    requires Inv(s)
    ensures var m := MrStep(s, b);
            && Core(m.s) && m.s.prev == s.prev && m.s.prev2 == s.prev2
            && m.s.pending == s.pending
            && (m.actions == [] ==> Inv(m.s) && Position(m.s) == Position(s))
            && (m.actions != [] ==> |m.actions| == 1 && m.s.mr.Some? && Acted(s, m))
  {
  }

  /** One action was taken: an entry opens the position now held, an exit closes the one that is still stored. */
  predicate Acted(s: Session, out: Stepped)
    requires |out.actions| == 1
  {
    || (out.s.phase == PendingEntry && Position(s) == Idle && Enter(Idle, out.actions[0]) == Position(out.s) != Idle)
    || (out.s.phase == PendingExit && Enter(Position(s), out.actions[0]) == Idle)
  }

  predicate SameMr(s: Session, t: Session) { s.mr == t.mr && s.mrTotal == t.mrTotal }

  lemma ObserveKeeps(s: Session, b: Bar)
    requires Core(s)
    ensures var o := Observe(s, b);
            Core(o) && SameMr(s, o) && Position(o) == Position(s) && o.phase == s.phase && o.prev == s.prev
                && o.prev2 == s.prev2
            && o.mr == s.mr && o.bo == s.bo && o.pending == s.pending
  {
  }

  lemma FillKeeps(s: Session, side: Side, b: Bar)
    requires Inv(s) && s.pending.None? && s.prev.Some?
    ensures var out := FillEntry(Stepped(s, []), side, b);
            && Core(out.s) && out.s.prev == s.prev && out.s.prev2 == s.prev2 && out.s.pending.None?
            && SameMr(s, out.s)
            && (out.actions == [] ==> out.s == s)
            && (out.actions != [] ==> |out.actions| == 1 && out.actions[0].component == Bo
                                      && out.s.phase == PendingEntry && Acted(s, out)
                                      && MinuteOfDay(b.time) < ELEVEN_PM)
  {
  }

  lemma HoldKeeps(out: Stepped, b: Bar)
    requires Core(out.s) && out.s.pending.None?
    requires out.actions == [] ==> Inv(out.s)
    requires out.actions != [] ==> |out.actions| == 1 && MinuteOfDay(b.time) < ELEVEN_PM
    ensures var held := Hold(out, b);
            && Core(held.s) && SameMr(out.s, held.s) && held.s.prev == out.s.prev && held.s.prev2 == out.s.prev2
            && Position(held.s) == Position(out.s)
            && if held.actions == out.actions then held.s.phase == out.s.phase
               else
                 && out.actions == [] && |held.actions| == 1 && held.actions[0].component == Bo
                 && held.s.phase == PendingExit && Acted(out.s, held)
  {
    hide HourCheck, MrMatches;
  }

  /** Filling and holding from a state without a pending order. */
  lemma LegKeeps(s: Session, fill: Option<Side>, b: Bar)
    requires Inv(s) && s.pending.None? && (fill.Some? ==> s.prev.Some?)
    ensures var out := Hold(if fill.Some? then FillEntry(Stepped(s, []), fill.value, b) else Stepped(s, []), b);
            && Core(out.s) && SameMr(s, out.s) && out.s.prev == s.prev && out.s.prev2 == s.prev2
            && (out.actions == [] ==> Inv(out.s) && Position(out.s) == Position(s))
            && (out.actions != [] ==> |out.actions| == 1 && out.actions[0].component == Bo && Acted(s, out))
  {
    var filled := if fill.Some? then FillEntry(Stepped(s, []), fill.value, b) else Stepped(s, []);
    if fill.Some? { FillKeeps(s, fill.value, b); }
    HoldKeeps(filled, b);
  }

  lemma ScheduleKeeps(s: Session, b: Bar)
    requires Core(s)
    ensures var o := Schedule(s, b);
            Core(o) && Position(o) == Position(s) && o == s.(pending := o.pending)
  {
  }

  lemma BoStepKeeps(s: Session, b: Bar)
    requires Inv(s)
    ensures BoStep(s, b).Some?
    ensures var out := BoStep(s, b).value;
            && Core(out.s) && SameMr(s, out.s) && out.s.prev == s.prev && out.s.prev2 == s.prev2
            && (out.actions == [] ==> Inv(out.s) && Position(out.s) == Position(s))
            && (out.actions != [] ==> |out.actions| == 1 && out.actions[0].component == Bo && Acted(s, out))
  {
    hide Observe, Hold, FillEntry, Schedule, MrMatches;
    var s0 := Observe(s, b);
    ObserveKeeps(s, b);
    var cleared := s0.(pending := None);
    if s0.pending.None? || s0.pending.value.ToEnter? {
      var fill := if s0.pending.None? then None else Some(s0.pending.value.side);
      LegKeeps(cleared, fill, b);
      var held := Hold(if fill.Some? then FillEntry(Stepped(cleared, []), fill.value, b) else Stepped(cleared, []), b);
      ScheduleKeeps(held.s, b);
    }
  }

  lemma SettleKeeps(s: Session, out: Stepped)
    requires Core(out.s) && |out.actions| <= 1
    requires out.actions == [] ==> Inv(out.s) && Position(out.s) == Position(s)
    requires out.actions != [] ==> Acted(s, out)
    ensures var s' := Settle(out.s);
            && Inv(s') && s'.prev == out.s.prev && s'.prev2 == out.s.prev2
            && (out.actions == [] ==> Position(s') == Position(s))
            && (out.actions != [] ==> Enter(Position(s), out.actions[0]) == Position(s'))
  {
  }

  /** One bar never raises, emits at most one action, and moves the open position exactly as the action says. */
  lemma StepKeeps(s: Session, b: Bar)
    requires Inv(s)
    ensures Step(s, b).Some?
    ensures var out := Step(s, b).value;
            && Inv(out.s) && out.s.prev == s.prev && out.s.prev2 == s.prev2
            && |out.actions| <= 1
            && (out.actions == [] ==> Position(out.s) == Position(s))
            && (out.actions != [] ==> Enter(Position(s), out.actions[0]) == Position(out.s))
  {
    hide MrStep, Observe, MrMatches;
    var m := MrStep(s, b);
    MrStepKeeps(s, b);
    if m.actions == [] {
      BoStepKeeps(m.s, b);
      var out := BoStep(m.s, b).value;
      assert m.actions + out.actions == out.actions;
      SettleKeeps(s, out);
    } else {
      var o := Observe(m.s, b);
      ObserveKeeps(m.s, b);
      assert BoStep(m.s, b) == Some(Stepped(o, []));
      assert m.actions + [] == m.actions;
      SettleKeeps(s, Stepped(o, m.actions));
    }
  }

  lemma {:induction false} PlayKeeps(s: Session, bars: seq<Bar>)
    requires Inv(s)
    ensures Play(s, bars).Some?
    ensures var p := Play(s, bars).value;
            && Inv(p.s) && p.s.prev == s.prev && |p.log| == |bars|
            && (forall i :: 0 <= i < |bars| ==> |p.log[i]| <= 1)
  {
    if bars != [] {
      var n := |bars| - 1;
      PlayKeeps(s, bars[..n]);
      StepKeeps(Play(s, bars[..n]).value.s, bars[n]);
    }
  }

  lemma FlattenSnoc(log: seq<seq<Action>>, acts: seq<Action>)
    requires |acts| <= 1
    ensures acts == [] ==> Flatten(log + [acts]) == Flatten(log)
    ensures acts != [] ==> Ledger(Flatten(log + [acts])) == Enter(Ledger(Flatten(log)), acts[0])
  {
    assert (log + [acts])[..|log|] == log;
    if acts != [] {
      var all := Flatten(log) + acts;
      assert all[..|all| - 1] == Flatten(log) && all[|all| - 1] == acts[0];
    }
  }

  lemma PlaySnoc(s: Session, bars: seq<Bar>, before: Played, out: Stepped)
    requires bars != [] && Play(s, bars[..|bars| - 1]) == Some(before) && Step(before.s, bars[|bars| - 1]) == Some(out)
    ensures Play(s, bars) == Some(Played(out.s, before.log + [out.actions]))
  {
  }

  ghost predicate Follows(p: Option<Played>) {
    p.Some? && Inv(p.value.s) && Ledger(Flatten(p.value.log)) == Position(p.value.s)
  }

  lemma FollowsOn(before: Played, b: Bar)
    requires Follows(Some(before))
    ensures Step(before.s, b).Some?
    ensures var out := Step(before.s, b).value; Follows(Some(Played(out.s, before.log + [out.actions])))
  {
    StepKeeps(before.s, b);
    FlattenSnoc(before.log, Step(before.s, b).value.actions);
  }

  lemma {:induction false} LedgerFollows(s: Session, bars: seq<Bar>)
    requires Inv(s) && Position(s) == Idle
    ensures Follows(Play(s, bars))
  {
    if bars != [] {
      var n := |bars| - 1;
      LedgerFollows(s, bars[..n]);
      var before := Play(s, bars[..n]).value;
      FollowsOn(before, bars[n]);
      PlaySnoc(s, bars, before, Step(before.s, bars[n]).value);
    }
  }

  /** Over any session the actions alternate entry and exit, each exit closing the component and side of the
      entry before it, and what remains open is exactly the position held. */
  lemma ActionsBracketed(context: Context, calendarAllows: bool, bars: seq<Bar>)
    ensures Play(Begin(context, calendarAllows), bars).Some?
    ensures var p := Play(Begin(context, calendarAllows), bars).value;
            Ledger(Flatten(p.log)) == Position(p.s) != Broken
  {
    BeginGood(context, calendarAllows);
    LedgerFollows(Begin(context, calendarAllows), bars);
  }

  // ---- No overnight position ----

  lemma MrLeavesByEleven(s: Session, b: Bar)
    requires Inv(s) && MinuteOfDay(b.time) >= ELEVEN_PM
    ensures var m := MrStep(s, b); if s.mr.Some? then m.s.phase == PendingExit else m == Stepped(s, [])
  {
  }

  lemma BoLeavesByEleven(s: Session, b: Bar)
    requires Inv(s) && s.mr.None? && MinuteOfDay(b.time) >= ELEVEN_PM
    ensures BoStep(s, b).Some?
    ensures var o := BoStep(s, b).value.s;
            if s.bo.Some? then o.phase == PendingExit
            else o.phase == Flat && o.bo.None? && o.mr.None? && o.pending.None?
  {
    hide Observe, MrMatches;
    ObserveKeeps(s, b);
    var s0 := Observe(s, b);
    var cleared := s0.(pending := None);
    if s0.bo.None? {
      assert Schedule(cleared, b) == cleared;
    }
  }

  /** From any reachable state a bar at or after 23:00 leaves nothing open and nothing pending. */
  lemma FlatByEleven(s: Session, b: Bar)
    requires Inv(s) && MinuteOfDay(b.time) >= ELEVEN_PM
    ensures Step(s, b).Some?
    ensures var s' := Step(s, b).value.s; s'.mr.None? && s'.bo.None? && s'.pending.None? && s'.phase == Flat
  {
    hide MrStep, Observe, MrMatches;
    StepKeeps(s, b);
    MrLeavesByEleven(s, b);
    if s.mr.None? {
      hide BoStep;
      BoLeavesByEleven(s, b);
    } else {
      MrStepKeeps(s, b);
      ObserveKeeps(MrStep(s, b).s, b);
    }
  }
}
