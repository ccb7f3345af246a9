/** Which bar decides and which bar fills: causality of breakout orders over whole sessions. */
module RiCausality {
  import opened Results
  import opened Calendar
  import opened RiModel
  import opened RiSafety

  /** The state on which the breakout leg evaluates a new entry; a pending exit ends the bar before that. */
  function BoPre(s: Session, b: Bar): Option<Session> {
    var s0 := Observe(s, b);
    var cleared := Stepped(s0.(pending := None), []);
    match s0.pending
    case None => Some(Hold(cleared, b).s)
    case Some(ToEnter(side)) => Some(Hold(FillEntry(cleared, side, b), b).s)
    case Some(ToExit(_)) => None
  }

  function BeforeSchedule(s: Session, b: Bar): Option<Session> {
    var m := MrStep(s, b);
    if m.actions == [] then BoPre(m.s, b) else None
  }

  /** The breakout direction that this bar orders for the next open. */
  function Orders(s: Session, b: Bar): Option<Side> {
    match BeforeSchedule(s, b)
    case None => None
    case Some(pre) => if MaySchedule(pre, b) then BoSignal(pre, b) else None
  }

  /** The stop that the close of this bar breaches for a breakout position. */
  function Breach(s: Session, b: Bar): Option<Reason> {
    if s.bo.None? || s.prev.None? || MinuteOfDay(b.time) >= ELEVEN_PM then None else
    var delta := Signed(b.close - s.prev.value.close, s.bo.value.side);
    if delta < 0.18 * s.prev.value.range then Some(EmergencyStop)
    else if HourCheck(s, b) && delta < 0.50 * s.prev.value.range then Some(HourStop)
    else None
  }

  predicate IsBo(out: Stepped, role: Role) {
    |out.actions| == 1 && out.actions[0].component == Bo && out.actions[0].role == role
  }

  lemma HoldPending(out: Stepped, b: Bar)
    requires Core(out.s) && out.s.pending.None?
    ensures var pre := Hold(out, b).s;
            && pre.bo.Some? == out.s.bo.Some?
            && pre.pending == (match Breach(pre, b) case None => None case Some(r) => Some(ToExit(r)))
  {
  }

  lemma BoPending(s: Session, b: Bar)
    requires Inv(s)
    ensures BoStep(s, b).Some?
    ensures var o := BoStep(s, b).value.s;
            match BoPre(s, b)
            case None => o.phase == PendingExit
            case Some(pre) =>
              && o == Schedule(pre, b)
              && pre.pending == (match Breach(pre, b) case None => None case Some(r) => Some(ToExit(r)))
  {
    ObserveKeeps(s, b);
    var s0 := Observe(s, b);
    var cleared := s0.(pending := None);
    if s0.pending.None? {
      HoldPending(Stepped(cleared, []), b);
    } else if s0.pending.value.ToEnter? {
      FillKeeps(cleared, s0.pending.value.side, b);
      HoldPending(FillEntry(Stepped(cleared, []), s0.pending.value.side, b), b);
    }
  }

  lemma SameBreach(s: Session, t: Session, b: Bar)
    requires s.bo == t.bo && s.prev == t.prev && s.first == t.first
    ensures Breach(s, b) == Breach(t, b)
  {
  }

  /** At a boundary a pending exit was requested by the bar just processed, and so was a pending entry unless
      MR took the slot on that bar. */
  lemma PendingIsFresh(s: Session, b: Bar)
    requires Inv(s) && Step(s, b).Some?
    ensures var s' := Step(s, b).value.s;
            && (s'.pending.Some? && s'.pending.value.ToEnter? && s'.mr.None?
                ==> Orders(s, b) == Some(s'.pending.value.side))
            && (s'.pending.Some? && s'.pending.value.ToExit? ==> Breach(s', b) == Some(s'.pending.value.reason))
  {
    hide Observe, MrStep, Hold, FillEntry, BoSignal, Breach, BoPre;
    MrStepKeeps(s, b);
    var m := MrStep(s, b);
    if m.actions == [] {
      hide BoStep;
      BoPending(m.s, b);
      if BoPre(m.s, b).Some? && BoStep(m.s, b).value.s.phase != PendingExit {
        SameBreach(BoPre(m.s, b).value, Step(s, b).value.s, b);
      }
    } else {
      ObserveKeeps(m.s, b);
    }
  }

  lemma BoEntryFills(s: Session, b: Bar)
    requires Inv(s) && Step(s, b).Some? && IsBo(Step(s, b).value, Entry)
    ensures var a := Step(s, b).value.actions[0];
            && s.mr.None? && s.pending == Some(ToEnter(a.side))
            && a.price == b.o && a.time == b.time && MinuteOfDay(b.time) < ELEVEN_PM
  {
    MrStepKeeps(s, b);
    ObserveKeeps(MrStep(s, b).s, b);
  }

  lemma BoExitFills(s: Session, b: Bar)
    requires Inv(s) && Step(s, b).Some? && IsBo(Step(s, b).value, Exit)
    ensures var a := Step(s, b).value.actions[0];
            if a.reason == EodClose then a.price == b.close && MinuteOfDay(b.time) >= ELEVEN_PM
            else a.price == b.o && s.pending == Some(ToExit(a.reason))
  {
    MrStepKeeps(s, b);
    ObserveKeeps(MrStep(s, b).s, b);
  }

  lemma {:induction false} PrefixPlays(s: Session, bars: seq<Bar>, i: nat)
    requires Inv(s) && i < |bars|
    ensures Play(s, bars).Some? && Play(s, bars[..i]).Some? && Inv(Play(s, bars[..i]).value.s)
    ensures |Play(s, bars).value.log| == |bars|
    ensures Step(Play(s, bars[..i]).value.s, bars[i]).Some?
    ensures Step(Play(s, bars[..i]).value.s, bars[i]).value.actions == Play(s, bars).value.log[i]
  {
    hide Step;
    var n := |bars| - 1;
    PlayKeeps(s, bars);
    PlayKeeps(s, bars[..i]);
    StepKeeps(Play(s, bars[..i]).value.s, bars[i]);
    if i < n {
      PrefixPlays(s, bars[..n], i);
      assert bars[..n][..i] == bars[..i];
      PlayKeeps(s, bars[..n]);
    }
  }

  /** Every breakout entry is filled at the open of exactly the bar after the one that ordered it, in the
      ordered direction, and before 23:00. */
  lemma BoEntriesCausal(context: Context, calendarAllows: bool, bars: seq<Bar>, i: nat)
    requires i < |bars|
    ensures var s := Begin(context, calendarAllows);
            && Play(s, bars).Some? && |Play(s, bars).value.log| == |bars|
            && forall a :: a in Play(s, bars).value.log[i] && a.component == Bo && a.role == Entry ==>
                 && i >= 1 && a.price == bars[i].o && a.time == bars[i].time && MinuteOfDay(bars[i].time) < ELEVEN_PM
                 && Play(s, bars[..i - 1]).Some?
                 && Orders(Play(s, bars[..i - 1]).value.s, bars[i - 1]) == Some(a.side)
  {
    hide Step, Orders, Breach;
    var s := Begin(context, calendarAllows);
    BeginGood(context, calendarAllows);
    PrefixPlays(s, bars, i);
    var at := Play(s, bars[..i]).value.s;
    StepKeeps(at, bars[i]);
    var out := Step(at, bars[i]).value;
    if IsBo(out, Entry) {
      BoEntryFills(at, bars[i]);
      assert i >= 1;
      PrefixPlays(s, bars[..i], i - 1);
      assert bars[..i][..i - 1] == bars[..i - 1];
      PendingIsFresh(Play(s, bars[..i - 1]).value.s, bars[i - 1]);
    }
  }

  /** Every breakout exit is either the close of a bar at or after 23:00 or the open of exactly the bar after
      the one whose close breached the stop named by the exit. */
  lemma BoExitsCausal(context: Context, calendarAllows: bool, bars: seq<Bar>, i: nat)
    requires i < |bars|
    ensures var s := Begin(context, calendarAllows);
            && Play(s, bars).Some? && |Play(s, bars).value.log| == |bars| && Play(s, bars[..i]).Some?
            && forall a :: a in Play(s, bars).value.log[i] && a.component == Bo && a.role == Exit ==>
                 if a.reason == EodClose then a.price == bars[i].close && MinuteOfDay(bars[i].time) >= ELEVEN_PM
                 else
                   i >= 1 && a.price == bars[i].o && Breach(Play(s, bars[..i]).value.s, bars[i - 1]) == Some(a.reason)
  {
    hide Step, Orders, Breach;
    var s := Begin(context, calendarAllows);
    BeginGood(context, calendarAllows);
    PrefixPlays(s, bars, i);
    var at := Play(s, bars[..i]).value.s;
    StepKeeps(at, bars[i]);
    var out := Step(at, bars[i]).value;
    if IsBo(out, Exit) {
      BoExitFills(at, bars[i]);
      if out.actions[0].reason != EodClose {
        assert i >= 1;
        PrefixPlays(s, bars[..i], i - 1);
        assert bars[..i][..i - 1] == bars[..i - 1];
        PendingIsFresh(Play(s, bars[..i - 1]).value.s, bars[i - 1]);
      }
    }
  }
}
