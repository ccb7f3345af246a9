/** Profit and loss of the mean-reversion leg: bounds per exit and for a whole session. */
module RiLoss {
  import opened Results
  import opened Calendar
  import opened RiModel
  import opened RiSafety

  function Gross(p: MrPosition, price: real): real { Signed(price - p.entryPrice, p.side) }

  /** What each kind of exit can cost, as a share of the previous range at entry. */
  predicate ExitWithin(p: MrPosition, reason: Reason, gross: real) {
    && p.prevRange > 0.0
    && match reason
       case Stop => if p.side == Long then -p.prevRange < gross < -0.89 * p.prevRange
                    else -0.75 * p.prevRange < gross < -0.55 * p.prevRange
       case Take => gross > 0.0
       case Breakeven => gross == 0.0
       case TimeExit => gross > -p.prevRange
       case _ => false
  }

  lemma ExitBounds(prev: Anchor, p: MrPosition, b: Bar)
    requires MrMatches(prev, p) && ValidBar(b) && MrExit(p, b).Some?
    ensures ExitWithin(p, MrExit(p, b).value.0, Gross(p, MrExit(p, b).value.1))
  {
  }

  function Exits(actions: seq<Action>): nat {
    if actions == [] then 0 else
      var a := actions[|actions| - 1];
      Exits(actions[..|actions| - 1]) + if a.component == Mr && a.role == Exit then 1 else 0
  }

  function MrPnl(actions: seq<Action>): real {
    if actions == [] then 0.0 else
      var a := actions[|actions| - 1];
      MrPnl(actions[..|actions| - 1]) + if a.component == Mr && a.role == Exit && a.pnl.Some? then a.pnl.value else 0.0
  }

  lemma MrTrades(s: Session, b: Bar)
    requires Inv(s) && ValidBar(b)
    ensures var m := MrStep(s, b);
            && Core(m.s) && m.s.prev == s.prev && |m.actions| <= 1
            && match |m.actions|
               case 0 => Inv(m.s) && m.s.mrTotal == s.mrTotal && m.s.mr.Some? == s.mr.Some?
               case _ =>
                 if m.actions[0].role == Entry then
                   s.mr.None? && m.s.mr.Some? && m.s.mrTotal == s.mrTotal + 1 && m.s.phase == PendingEntry
                 else
                   && s.mr.Some? && m.s.mrTotal == s.mrTotal && m.s.phase == PendingExit
                   && m.actions[0].component == Mr && m.actions[0].pnl.Some?
                   && s.prev.Some? && s.prev.value.range > 0.0 && m.actions[0].pnl.value > -(s.prev.value.range + 2.0)
  {
    MrStepKeeps(s, b);
    if s.mr.Some? {
      hide MrExit;
      var p := s.mr.value.(held := s.mr.value.held + 1);
      if MrExit(p, b).Some? { ExitBounds(s.prev.value, p, b); }
    }
  }

  /** How one bar moves the MR count and the MR result. */
  lemma StepTrades(s: Session, b: Bar)
    requires Inv(s) && ValidBar(b) && Step(s, b).Some?
    ensures var out := Step(s, b).value;
            var open, open' := if s.mr.Some? then 1 else 0, if out.s.mr.Some? then 1 else 0;
            && out.s.mrTotal - s.mrTotal == Exits(out.actions) + open' - open
            && Exits(out.actions) <= 1
            && (Exits(out.actions) == 0 ==> MrPnl(out.actions) == 0.0)
            && (Exits(out.actions) == 1 ==> s.prev.Some? && s.prev.value.range > 0.0
                                            && MrPnl(out.actions) > -(s.prev.value.range + 2.0))
  {
    hide BoStep, MrStep, MrMatches, Exits, MrPnl, Position;
    MrTrades(s, b);
    var m := MrStep(s, b);
    if m.actions == [] {
      BoStepKeeps(m.s, b);
      assert m.actions + BoStep(m.s, b).value.actions == BoStep(m.s, b).value.actions;
      if m.s.mr.Some? { BoLeavesMr(m.s, b); }
    } else {
      QuietBo(m.s, b);
      assert Step(s, b).value.actions == m.actions;
    }
    FewTrades(Step(s, b).value.actions);
  }

  lemma FewTrades(acts: seq<Action>)
    requires |acts| <= 1
    ensures var exits := |acts| == 1 && acts[0].component == Mr && acts[0].role == Exit;
            && Exits(acts) == (if exits then 1 else 0)
            && MrPnl(acts) == if exits && acts[0].pnl.Some? then acts[0].pnl.value else 0.0
  {
    if acts != [] { assert acts[..0] == []; }
  }

  lemma BoLeavesMr(s: Session, b: Bar)
    requires Inv(s) && s.mr.Some?
    ensures BoStep(s, b).Some? && BoStep(s, b).value.s.phase != PendingExit
  {
    hide BoStep;
    BoStepKeeps(s, b);
  }

  /** After an MR action the breakout leg only observes the bar. */
  lemma QuietBo(s: Session, b: Bar)
    requires Core(s) && s.phase in {PendingEntry, PendingExit}
    ensures BoStep(s, b).Some? && BoStep(s, b).value.actions == []
    ensures SameMr(s, BoStep(s, b).value.s) && BoStep(s, b).value.s.phase == s.phase
  {
    ObserveKeeps(s, b);
  }

  ghost predicate Bounded(p: Option<Played>) {
    p.Some? && Inv(p.value.s) &&
    var s, all := p.value.s, Flatten(p.value.log);
    && s.mrTotal == Exits(all) + (if s.mr.Some? then 1 else 0)
    && (Exits(all) == 0 ==> MrPnl(all) == 0.0)
    && (Exits(all) == 1 ==> s.prev.Some? && s.prev.value.range > 0.0 && MrPnl(all) > -(s.prev.value.range + 2.0))
    && (Exits(all) == 2 ==> s.prev.Some? && s.prev.value.range > 0.0 && MrPnl(all) > -2.0 * (s.prev.value.range + 2.0))
  }

  lemma FlattenAdds(log: seq<seq<Action>>, acts: seq<Action>)
    requires |acts| <= 1
    ensures Exits(Flatten(log + [acts])) == Exits(Flatten(log)) + Exits(acts)
    ensures MrPnl(Flatten(log + [acts])) == MrPnl(Flatten(log)) + MrPnl(acts)
  {
    FlattenSnoc(log, acts);
    assert (log + [acts])[..|log|] == log;
    if acts != [] {
      var all := Flatten(log) + acts;
      assert all[..|all| - 1] == Flatten(log) && all[|all| - 1] == acts[0] && acts[..0] == [];
    }
  }

  lemma BoundedOn(before: Played, b: Bar)
    requires Bounded(Some(before)) && ValidBar(b)
    ensures Step(before.s, b).Some?
    ensures var out := Step(before.s, b).value; Bounded(Some(Played(out.s, before.log + [out.actions])))
  {
    hide Step;
    StepKeeps(before.s, b);
    StepTrades(before.s, b);
    FlattenAdds(before.log, Step(before.s, b).value.actions);
  }

  lemma {:induction false} PlayBounded(s: Session, bars: seq<Bar>)
    requires Bounded(Some(Played(s, [])))
    requires forall i :: 0 <= i < |bars| ==> ValidBar(bars[i])
    ensures Bounded(Play(s, bars))
  {
    hide Step, Bounded;
    if bars != [] {
      var n := |bars| - 1;
      PlayBounded(s, bars[..n]);
      BoundedSome(Play(s, bars[..n]));
      var before := Play(s, bars[..n]).value;
      BoundedOn(before, bars[n]);
      PlaySnoc(s, bars, before, Step(before.s, bars[n]).value);
    }
  }

  lemma BoundedSome(p: Option<Played>)
    requires Bounded(p)
    ensures p.Some?
  {
  }

  /** In any session of valid bars the MR leg closes at most two trades and loses, costs included, less than
      twice the previous range plus two points each; without a closed trade its result is zero. */
  lemma SessionLoss(context: Context, calendarAllows: bool, bars: seq<Bar>)
    requires forall i :: 0 <= i < |bars| ==> ValidBar(bars[i])
    ensures Play(Begin(context, calendarAllows), bars).Some?
    ensures var all := Flatten(Play(Begin(context, calendarAllows), bars).value.log);
            && Exits(all) <= 2
            && (Exits(all) == 0 ==> MrPnl(all) == 0.0)
            && (Exits(all) > 0 ==> context.previous.Some? && context.previous.value.range > 0.0
                                   && MrPnl(all) > -2.0 * (context.previous.value.range + 2.0))
            && (Exits(all) == 1 ==> MrPnl(all) > -(context.previous.value.range + 2.0))
  {
    var s := Begin(context, calendarAllows);
    BeginGood(context, calendarAllows);
    PlayBounded(s, bars);
    PlayKeeps(s, bars);
  }
}
