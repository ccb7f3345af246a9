/** One decision session of the RI model: a mean-reversion leg (MR) and a breakout leg (BO) on one slot. */
module RiModel {
  import opened Results
  import opened Calendar
  import opened Numbers

  datatype Source = Live | History | HistoryGap

  datatype Bar = Bar(time: int, o: real, h: real, l: real, close: real, v: real, origin: Source)

  predicate ValidBar(b: Bar) {
    0.0 < b.l <= b.o <= b.h && b.l <= b.close <= b.h && b.v >= 0.0
  }

  datatype Anchor = Anchor(date: int, high: real, low: real, close: real, range: real, bars: nat)

  datatype Context = Context(previous: Option<Anchor>, previous2: Option<Anchor>)

  datatype Side = Long | Short
  datatype Component = Mr | Bo
  datatype Role = Entry | Exit
  datatype Reason =
    | LiveEntry | NextBarEntry | Stop | Take | TimeExit | Breakeven
    | EmergencyStop | HourStop | EodClose

  datatype MrPosition = MrPosition(side: Side, entryTime: int, entryPrice: real, prevClose: real, prevRange: real,
      held: nat)
  datatype BoPosition = BoPosition(side: Side, entryTime: int, entryPrice: real, held: nat)
  datatype Pending = ToEnter(side: Side) | ToExit(reason: Reason)
  datatype Phase = Flat | InPosition | PendingEntry | PendingExit

  datatype Action = Action(component: Component, role: Role, side: Side, reason: Reason, time: int,
                           price: real, pnl: Option<real>)

  datatype Session = Session(
    prev: Option<Anchor>, prev2: Option<Anchor>, allowed: bool,
    mr: Option<MrPosition>, bo: Option<BoPosition>, pending: Option<Pending>,
    mrTotal: nat, boTotal: nat, count: nat, first: int,
    high: real, low: real, firstHigh: real, firstLow: real,
    longLevel: Option<real>, shortLevel: Option<real>,
    usedLong: bool, usedShort: bool, phase: Phase)

  datatype Stepped = Stepped(s: Session, actions: seq<Action>)

  /** Prices are positive in every admitted bar; the guard only makes the quotient total. */
  function Ratio(a: real, b: real): real { if b == 0.0 then 0.0 else a / b }

  function Abs(a: real): real { if a < 0.0 then -a else a }

  /** A price difference seen from the side of a position. */
  function Signed(x: real, side: Side): real { if side == Long then x else -x }

  const TEN := 600
  const EIGHT_PM := 1200
  const ELEVEN_PM := 1380

  /** A fresh session: both anchors or none, and a calendar permission given by the caller. */
  function Begin(context: Context, calendarAllows: bool): Session {
    var ready := context.previous.Some? && context.previous2.Some?;
    Session(if ready then context.previous else None, if ready then context.previous2 else None,
            ready && calendarAllows,
            None, None, None, 0, 0, 0, 0, 0.0, 0.0, 0.0, 0.0, None, None, false, false, Flat)
  }

  function Act(out: Stepped, component: Component, role: Role, side: Side, entryPrice: real, reason: Reason, time: int,
               price: real): Stepped
  {
    var gross := Signed(price - entryPrice, side);
    var pnl := if role == Entry then None else Some(gross - if component == Mr then 2.0 else 0.0);
    Stepped(out.s.(phase := if role == Entry then PendingEntry else PendingExit),
            out.actions + [Action(component, role, side, reason, time, price, pnl)])
  }

  // ---- Mean reversion ----

  function MrStop(p: MrPosition): real {
    if p.side == Long then p.prevClose - p.prevRange else p.prevClose + 0.75 * p.prevRange
  }

  function MrTake(p: MrPosition): real {
    if p.side == Long then p.prevClose + 0.005 * p.prevRange else p.prevClose - 0.020 * p.prevRange
  }

  /** Why and at which price an MR position leaves on this bar; the stop comes first. */
  function MrExit(p: MrPosition, b: Bar): Option<(Reason, real)> {
    if (if p.side == Long then b.l <= MrStop(p) else b.h >= MrStop(p)) then Some((Stop, MrStop(p)))
    else if Signed(b.close - MrTake(p), p.side) > 0.0 then Some((Take, b.close))
    else if MinuteOfDay(b.time) >= EIGHT_PM then Some((TimeExit, b.close))
    else if p.held > 20 && (if p.side == Long then b.h >= p.entryPrice else b.l <= p.entryPrice)
        then Some((Breakeven, p.entryPrice))
    else None
  }

  function MrSignal(prev: Anchor, b: Bar): Option<Side> {
    var diff := b.close - prev.close;
    if !(MinuteOfDay(b.time) <= TEN && 0.005 < Ratio(prev.range, prev.low) < 0.100) then None
    else if 0.0 < diff < 0.20 * prev.range then Some(Short)
    else if -0.11 * prev.range < diff < 0.0 then Some(Long)
    else None
  }

  function MrStep(s: Session, b: Bar): Stepped {
    match s.mr
    case Some(was) =>
      var p := was.(held := was.held + 1);
      var s1 := s.(mr := Some(p));
      (match MrExit(p, b)
       case None => Stepped(s1, [])
       case Some((reason, price)) => Act(Stepped(s1, []), Mr, Exit, p.side, p.entryPrice, reason, b.time, price))
    case None =>
      if s.mrTotal >= 2 || s.bo.Some? || s.prev.None? then Stepped(s, []) else
      match MrSignal(s.prev.value, b)
      case None => Stepped(s, [])
      case Some(side) =>
        var p := MrPosition(side, b.time, b.close, s.prev.value.close, s.prev.value.range, 0);
        Act(Stepped(s.(mr := Some(p), mrTotal := s.mrTotal + 1), []), Mr, Entry, side, b.close, LiveEntry, b.time,
            b.close)
  }

  // ---- Breakout ----

  function Observe(s: Session, b: Bar): Session {
    var s1 := s.(first := if s.count == 0 then b.time else s.first,
                 high := if s.count == 0 then b.h else Max(s.high, b.h),
                 low := if s.count == 0 then b.l else Min(s.low, b.l));
    var s2 :=
      if s.count == 5 && s.prev.Some? then
        var prev := s.prev.value;
        s1.(longLevel := Some(Max(Max(prev.close + 0.42 * prev.range, b.close), s.firstHigh)),
            shortLevel := Some(Min(Min(prev.close - 0.42 * prev.range, b.close), s.firstLow)),
            allowed := s.allowed && Abs(b.close - prev.close) <= 1.5 * prev.range)
      else s1;
    var s3 := if s.count == 0 then s2.(firstHigh := b.h, firstLow := b.l) else s2;
    s3.(count := s.count + 1)
  }

  function HourCheck(s: Session, b: Bar): bool {
    MinuteOfDay(b.time) % 60 == 50 && b.time > s.first + 3000
  }

  /** The direction in which the breakout leg wants to enter at the next bar. */
  function BoSignal(s: Session, b: Bar): Option<Side>
    requires s.prev.Some? && s.prev2.Some? && s.longLevel.Some? && s.shortLevel.Some?
  {
    var ret := Ratio(s.prev.value.close, s.prev2.value.close) - 1.0;
    if s.usedLong && b.h >= s.high then Some(Long)
    else if s.usedShort && b.l <= s.low then Some(Short)
    else if HourCheck(s, b) && Ratio(s.prev.value.high, s.prev.value.low) > 1.01 then
      if ret > -0.025 && b.close > s.longLevel.value then Some(Long)
      else if ret < 0.025 && b.close < s.shortLevel.value then Some(Short)
      else None
    else None
  }

  predicate MaySchedule(s: Session, b: Bar) {
    && s.prev.Some? && s.prev2.Some? && s.pending.None? && s.bo.None? && s.mr.None? && s.allowed
    && s.longLevel.Some? && s.shortLevel.Some? && MinuteOfDay(b.time) < ELEVEN_PM
  }

  function Schedule(s: Session, b: Bar): Session {
    if !MaySchedule(s, b) then s else
    match BoSignal(s, b)
    case None => s
    case Some(side) => s.(pending := Some(ToEnter(side)))
  }

  function FillEntry(out: Stepped, side: Side, b: Bar): Stepped {
    if MinuteOfDay(b.time) >= ELEVEN_PM || out.s.mr.Some? || out.s.bo.Some? then out
    else
      var s1 := out.s.(bo := Some(BoPosition(side, b.time, b.o, 0)), boTotal := out.s.boTotal + 1,
                       usedLong := out.s.usedLong || side == Long, usedShort := out.s.usedShort || side == Short);
      Act(Stepped(s1, out.actions), Bo, Entry, side, b.o, NextBarEntry, b.time, b.o)
  }

  function Hold(out: Stepped, b: Bar): Stepped {
    if out.s.bo.None? then out else
    var p := out.s.bo.value.(held := out.s.bo.value.held + 1);
    var s1 := out.s.(bo := Some(p));
    if MinuteOfDay(b.time) >= ELEVEN_PM then
      Act(Stepped(s1, out.actions), Bo, Exit, p.side, p.entryPrice, EodClose, b.time, b.close)
    else if s1.prev.None? then Stepped(s1, out.actions)
    else
      var delta := Signed(b.close - s1.prev.value.close, p.side);
      if delta < 0.18 * s1.prev.value.range then Stepped(s1.(pending := Some(ToExit(EmergencyStop))), out.actions)
      else if HourCheck(s1, b) && delta < 0.50 * s1.prev.value.range
          then Stepped(s1.(pending := Some(ToExit(HourStop))), out.actions)
      else Stepped(s1, out.actions)
  }

  /** `None` stands for the exception raised on a pending exit without a BO position. */
  function BoStep(s: Session, b: Bar): Option<Stepped> {
    var s0 := Observe(s, b);
    if s0.phase == PendingEntry || s0.phase == PendingExit then Some(Stepped(s0, []))
    else
      var cleared := Stepped(s0.(pending := None), []);
      match s0.pending
      case Some(ToExit(reason)) =>
        if s0.bo.None? then None
        else Some(Act(cleared, Bo, Exit, s0.bo.value.side, s0.bo.value.entryPrice, reason, b.time, b.o))
      case Some(ToEnter(side)) =>
        var held := Hold(FillEntry(cleared, side, b), b);
        Some(Stepped(Schedule(held.s, b), held.actions))
      case None =>
        var held := Hold(cleared, b);
        Some(Stepped(Schedule(held.s, b), held.actions))
  }

  // ---- One bar ----

  function Settle(s: Session): Session {
    match s.phase
    case PendingEntry => s.(phase := InPosition)
    case PendingExit => s.(mr := None, bo := None, pending := None, phase := Flat)
    case _ => s
  }

  function Step(s: Session, b: Bar): Option<Stepped> {
    var m := MrStep(s, b);
    match BoStep(m.s, b)
    case None => None
    case Some(out) => Some(Stepped(Settle(out.s), m.actions + out.actions))
  }

  /** A whole session; `log[i]` holds the actions of bar `i`. */
  datatype Played = Played(s: Session, log: seq<seq<Action>>)

  function Play(s: Session, bars: seq<Bar>): Option<Played> {
    if bars == [] then Some(Played(s, [])) else
    match Play(s, bars[..|bars| - 1])
    case None => None
    case Some(p) =>
      match Step(p.s, bars[|bars| - 1])
      case None => None
      case Some(out) => Some(Played(out.s, p.log + [out.actions]))
  }

  function Flatten(log: seq<seq<Action>>): seq<Action> {
    if log == [] then [] else Flatten(log[..|log| - 1]) + log[|log| - 1]
  }
}
