/** What an RI session does, told from the context, the bars seen and the actions taken, with no state of its own. */
module RiOracle {
  import opened Results
  import opened Calendar
  import opened RiModel
  import opened RiSafety

  // ---- Reading the log ----

  predicate IsFill(acts: seq<Action>, side: Side) {
    exists k :: 0 <= k < |acts| && acts[k].component == Bo && acts[k].role == Entry && acts[k].side == side
  }

  /** The breakout leg has entered on this side before. */
  predicate Filled(log: seq<seq<Action>>, side: Side) { exists i :: 0 <= i < |log| && IsFill(log[i], side) }

  /** How many MR entries there were. */
  function MrEntries(log: seq<seq<Action>>): nat {
    if log == [] then 0 else
      var last := log[|log| - 1];
      MrEntries(log[..|log| - 1]) + if last != [] && last[0].component == Mr && last[0].role == Entry then 1 else 0
  }

  /** How many bars have passed without an action. */
  function Age(log: seq<seq<Action>>): nat {
    if log == [] || log[|log| - 1] != [] then 0 else Age(log[..|log| - 1]) + 1
  }

  function Open(log: seq<seq<Action>>): Book { Ledger(Flatten(log)) }

  // ---- Mean reversion ----

  predicate Ready(c: Context) { c.previous.Some? && c.previous2.Some? }

  /** Until 10:00, after a previous range between half a percent and ten percent of the low, a close above the
      previous close by less than a fifth of the range is sold, one below it by less than 0.11 of it is bought. */
  predicate MrSells(prev: Anchor, b: Bar) {
    && MinuteOfDay(b.time) <= 600 && 0.005 < Ratio(prev.range, prev.low) < 0.100
    && prev.close < b.close < prev.close + 0.20 * prev.range
  }

  predicate MrBuys(prev: Anchor, b: Bar) {
    && MinuteOfDay(b.time) <= 600 && 0.005 < Ratio(prev.range, prev.low) < 0.100
    && prev.close - 0.11 * prev.range < b.close < prev.close
  }

  /** Where a held MR position leaves on this bar, `age` bars after its entry: at the stop if it is touched; else at a
      close beyond the target; else at any close from 20:00; else at the entry price if touched after twenty bars. */
  function MrLeaves(prev: Anchor, side: Side, entry: real, age: nat, b: Bar): Option<(Reason, real)> {
    match side
    case Long =>
      if b.l <= prev.close - prev.range then Some((Stop, prev.close - prev.range))
      else if b.close > prev.close + 0.005 * prev.range then Some((Take, b.close))
      else if MinuteOfDay(b.time) >= 1200 then Some((TimeExit, b.close))
      else if age > 20 && b.h >= entry then Some((Breakeven, entry))
      else None
    case Short =>
      if b.h >= prev.close + 0.75 * prev.range then Some((Stop, prev.close + 0.75 * prev.range))
      else if b.close < prev.close - 0.020 * prev.range then Some((Take, b.close))
      else if MinuteOfDay(b.time) >= 1200 then Some((TimeExit, b.close))
      else if age > 20 && b.l <= entry then Some((Breakeven, entry))
      else None
  }

  function Gain(side: Side, entry: real, price: real): real {
    match side
    case Long => price - entry
    case Short => entry - price
  }

  /** The MR action of a bar: an exit from an open MR position, an entry when flat and fewer than two were made. */
  function NextMr(c: Context, log: seq<seq<Action>>, b: Bar): seq<Action> {
    if !Ready(c) then [] else
    match Open(log)
    case Holding(component, side, entry) =>
      if component == Bo then [] else
      (match MrLeaves(c.previous.value, side, entry, Age(log) + 1, b)
       case None => []
       case Some((reason, price)) => [Action(Mr, Exit, side, reason, b.time, price,
           Some(Gain(side, entry, price) - 2.0))])
    case Idle =>
      if MrEntries(log) >= 2 then []
      else if MrSells(c.previous.value, b) then [Action(Mr, Entry, Short, LiveEntry, b.time, b.close, None)]
      else if MrBuys(c.previous.value, b) then [Action(Mr, Entry, Long, LiveEntry, b.time, b.close, None)]
      else []
    case Broken => []
  }

  // ---- Breakout ----

  /** The session may still trade: both anchors, a permitted day, and the sixth close within one and a half previous
      ranges of the previous close. */
  predicate Permitted(c: Context, calendarAllows: bool, bars: seq<Bar>) {
    && Ready(c) && calendarAllows
    && (|bars| >= 6 ==>
          var prev := c.previous.value;
          prev.close - 1.5 * prev.range <= bars[5].close <= prev.close + 1.5 * prev.range)
  }

  /** The last bar is labelled ten minutes before the hour and more than fifty minutes after the first. */
  predicate HourBar(bars: seq<Bar>)
    requires bars != []
  {
    var b := bars[|bars| - 1];
    MinuteOfDay(b.time) % 60 == 50 && b.time > bars[0].time + 3000
  }

  predicate BreaksUp(prev: Anchor, bars: seq<Bar>)
    requires |bars| >= 6
  {
    var x := bars[|bars| - 1].close;
    x > prev.close + 0.42 * prev.range && x > bars[5].close && x > bars[0].h
  }

  predicate BreaksDown(prev: Anchor, bars: seq<Bar>)
    requires |bars| >= 6
  {
    var x := bars[|bars| - 1].close;
    x < prev.close - 0.42 * prev.range && x < bars[5].close && x < bars[0].l
  }

  predicate NewHigh(bars: seq<Bar>)
    requires bars != []
  {
    forall i :: 0 <= i < |bars| ==> bars[i].h <= bars[|bars| - 1].h
  }

  predicate NewLow(bars: seq<Bar>)
    requires bars != []
  {
    forall i :: 0 <= i < |bars| ==> bars[i].l >= bars[|bars| - 1].l
  }

  /** The breakout order that stands after the last bar: with nothing open and no action on that bar, in a permitted
      session before 23:00 with six bars seen, again in a direction filled before at a new extreme, else on an hour
      bar after a previous range of more than one percent in the direction of a break, unless the previous return
      was against it by 2.5 percent. */
  function Wants(c: Context, calendarAllows: bool, bars: seq<Bar>, log: seq<seq<Action>>): Option<Side>
    requires bars != [] && |log| == |bars|
  {
    if !Permitted(c, calendarAllows, bars) || |bars| < 6 || MinuteOfDay(bars[|bars| - 1].time) >= 1380
       || log[|log| - 1] != [] || Open(log) != Idle then None
    else
      var prev, change := c.previous.value, Ratio(c.previous.value.close, c.previous2.value.close);
      if Filled(log, Long) && NewHigh(bars) then Some(Long)
      else if Filled(log, Short) && NewLow(bars) then Some(Short)
      else if !HourBar(bars) || Ratio(prev.high, prev.low) <= 1.01 then None
      else if change > 0.975 && BreaksUp(prev, bars) then Some(Long)
      else if change < 1.025 && BreaksDown(prev, bars) then Some(Short)
      else None
  }

  /** The stop that the last close breaches for an open breakout position: less than 0.18 of the previous range gained
      over the previous close, or on an hour bar less than half of it. */
  function Stops(c: Context, bars: seq<Bar>, side: Side): Option<Reason>
    requires bars != [] && Ready(c)
  {
    var prev, b := c.previous.value, bars[|bars| - 1];
    var won := Gain(side, prev.close, b.close);
    if MinuteOfDay(b.time) >= 1380 then None
    else if won < 0.18 * prev.range then Some(EmergencyStop)
    else if HourBar(bars) && won < 0.50 * prev.range then Some(HourStop)
    else None
  }

  /** The breakout action of a bar on which MR does not act: an exit at the open after a breached stop, or at the
      close from 23:00; an entry at the open of the bar after an order, before 23:00. */
  function NextBo(c: Context, calendarAllows: bool, bars: seq<Bar>, log: seq<seq<Action>>, b: Bar): seq<Action>
    requires |log| == |bars|
  {
    if !Ready(c) || bars == [] then [] else
    match Open(log)
    case Holding(component, side, entry) =>
      if component == Mr then [] else
      (match Stops(c, bars, side)
       case Some(reason) => [Action(Bo, Exit, side, reason, b.time, b.o, Some(Gain(side, entry, b.o)))]
       case None =>
         if MinuteOfDay(b.time) < 1380 then []
         else [Action(Bo, Exit, side, EodClose, b.time, b.close, Some(Gain(side, entry, b.close)))])
    case Idle =>
      (match Wants(c, calendarAllows, bars, log)
       case Some(side) =>
         if MinuteOfDay(b.time) >= 1380 then [] else [Action(Bo, Entry, side, NextBarEntry, b.time, b.o, None)]
       case None => [])
    case Broken => []
  }

  /** What the next bar brings. */
  function Next(c: Context, calendarAllows: bool, bars: seq<Bar>, log: seq<seq<Action>>, b: Bar): seq<Action>
    requires |log| == |bars|
  {
    var mr := NextMr(c, log, b);
    if mr != [] then mr else NextBo(c, calendarAllows, bars, log, b)
  }

  // ---- What the session's state remembers ----

  ghost predicate SeenBars(bars: seq<Bar>, s: Session) {
    && s.count == |bars|
    && (bars != [] ==>
          && s.first == bars[0].time && s.firstHigh == bars[0].h && s.firstLow == bars[0].l
          && (forall i :: 0 <= i < |bars| ==> s.low <= bars[i].l && bars[i].h <= s.high)
          && (exists i :: 0 <= i < |bars| && bars[i].h == s.high)
          && (exists i :: 0 <= i < |bars| && bars[i].l == s.low))
  }

  predicate IsGreatest(x: real, a: real, b: real, c: real) {
    x >= a && x >= b && x >= c && (x == a || x == b || x == c)
  }

  ghost predicate SeenLevels(c: Context, calendarAllows: bool, bars: seq<Bar>, s: Session) {
    && s.prev == (if Ready(c) then c.previous else None)
    && s.prev2 == (if Ready(c) then c.previous2 else None)
    && (s.longLevel.Some? <==> Ready(c) && |bars| >= 6) && (s.shortLevel.Some? <==> s.longLevel.Some?)
    && (s.longLevel.Some? ==>
          var prev := c.previous.value;
          && IsGreatest(s.longLevel.value, prev.close + 0.42 * prev.range, bars[5].close, bars[0].h)
          && IsGreatest(-s.shortLevel.value, -(prev.close - 0.42 * prev.range), -bars[5].close, -bars[0].l))
    && (s.allowed <==> Permitted(c, calendarAllows, bars))
  }

  ghost predicate Seen(c: Context, calendarAllows: bool, bars: seq<Bar>, s: Session) {
    SeenBars(bars, s) && SeenLevels(c, calendarAllows, bars, s)
  }

  /** The two states have seen the same. */
  predicate SameSight(s: Session, t: Session) {
    && t.prev == s.prev && t.prev2 == s.prev2 && t.allowed == s.allowed && t.count == s.count && t.first == s.first
    && t.high == s.high && t.low == s.low && t.firstHigh == s.firstHigh && t.firstLow == s.firstLow
    && t.longLevel == s.longLevel && t.shortLevel == s.shortLevel
  }

  lemma SeenSame(c: Context, calendarAllows: bool, bars: seq<Bar>, s: Session, t: Session)
    requires Seen(c, calendarAllows, bars, s) && SameSight(s, t)
    ensures Seen(c, calendarAllows, bars, t)
  {
  }

  lemma ObserveBars(bars: seq<Bar>, s: Session, b: Bar)
    requires SeenBars(bars, s)
    ensures SeenBars(bars + [b], Observe(s, b))
  {
    var more, o := bars + [b], Observe(s, b);
    assert more[|bars|] == b && forall i :: 0 <= i < |bars| ==> more[i] == bars[i];
    if bars != [] {
      var i :| 0 <= i < |bars| && bars[i].h == s.high;
      var j :| 0 <= j < |bars| && bars[j].l == s.low;
      assert more[i].h == s.high && more[j].l == s.low;
    }
  }

  lemma ObserveLevels(c: Context, calendarAllows: bool, bars: seq<Bar>, s: Session, b: Bar)
    requires SeenBars(bars, s) && SeenLevels(c, calendarAllows, bars, s)
    ensures SeenLevels(c, calendarAllows, bars + [b], Observe(s, b))
  {
    var more := bars + [b];
    assert |bars| == 5 ==> more[5] == b;
    assert |bars| > 5 ==> more[5] == bars[5];
    assert bars != [] ==> more[0] == bars[0];
  }

  // ---- The orders ----

  function OrderOf(side: Option<Side>): Option<Pending> { if side.None? then None else Some(ToEnter(side.value)) }

  function ExitOf(reason: Option<Reason>): Option<Pending> { if reason.None? then None else Some(ToExit(reason.value)) }

  predicate Remembers(s: Session, log: seq<seq<Action>>) {
    && (s.usedLong <==> Filled(log, Long)) && (s.usedShort <==> Filled(log, Short))
    && s.mrTotal == MrEntries(log) && Open(log) == Position(s)
    && (s.mr.Some? ==> s.mr.value.held == Age(log))
  }

  lemma Extremes(bars: seq<Bar>, s: Session)
    requires bars != [] && SeenBars(bars, s)
    ensures bars[|bars| - 1].h >= s.high <==> NewHigh(bars)
    ensures bars[|bars| - 1].l <= s.low <==> NewLow(bars)
  {
    var i :| 0 <= i < |bars| && bars[i].h == s.high;
    var j :| 0 <= j < |bars| && bars[j].l == s.low;
  }

  lemma HourExact(bars: seq<Bar>, s: Session)
    requires bars != [] && SeenBars(bars, s)
    ensures HourCheck(s, bars[|bars| - 1]) <==> HourBar(bars)
  {
  }

  /** The entry signal on a state that has seen the bars is the one told from the bars. */
  lemma SignalExact(c: Context, calendarAllows: bool, bars: seq<Bar>, s: Session, log: seq<seq<Action>>)
    requires bars != [] && |log| == |bars| && Seen(c, calendarAllows, bars, s)
    requires log[|log| - 1] == [] && Open(log) == Idle && s.mr.None? && s.bo.None? && s.pending.None?
    requires s.usedLong == Filled(log, Long) && s.usedShort == Filled(log, Short)
    ensures Schedule(s, bars[|bars| - 1]).pending == OrderOf(Wants(c, calendarAllows, bars, log))
  {
    Extremes(bars, s);
    HourExact(bars, s);
    hide SeenBars, Filled, Open, NewHigh, NewLow, HourBar, HourCheck, Permitted, MinuteOfDay;
    var b := bars[|bars| - 1];
    if MaySchedule(s, b) {
      var prev := c.previous.value;
      assert b.close > s.longLevel.value <==> BreaksUp(prev, bars);
      assert b.close < s.shortLevel.value <==> BreaksDown(prev, bars);
    }
  }

  lemma StopsExact(c: Context, calendarAllows: bool, bars: seq<Bar>, s: Session, out: Stepped)
    requires bars != [] && Seen(c, calendarAllows, bars, s) && s.bo.Some? && Ready(c) && s.pending.None? && out.s == s
    ensures MinuteOfDay(bars[|bars| - 1].time) < ELEVEN_PM ==>
      Hold(out, bars[|bars| - 1]).s.pending == ExitOf(Stops(c, bars, s.bo.value.side))
  {
    HourExact(bars, s);
    hide SeenBars, HourBar, HourCheck, Permitted, MinuteOfDay;
  }
}
