/** The rows of a replay, told from the whole stream: who may trade when, and what every observed bar brings. */
module RiToldRows {
  import opened Results
  import opened Calendar
  import opened RiModel
  import opened RiContext
  import opened RiSafety
  import opened RiHistory
  import opened RiFreeze
  import opened RiOracle
  import opened RiForetold

  /** No breakout session on a Friday, counted in weeks from the second of January 1970, or in the blackout. */
  predicate Forbidden(cfg: Setup, day: int) { day % 7 == 1 || day in cfg.blackout }

  /** The context of a day, from everything the stream ever routes as context with an earlier date. */
  ghost function DayContext(cfg: Setup, items: seq<Item>, day: int): Context {
    ContextOf(OfflineWarmup(cfg, items, day), cfg.policy)
  }

  ghost function DayStart(cfg: Setup, items: seq<Item>, day: int): Session {
    Begin(DayContext(cfg, items, day), !Forbidden(cfg, day))
  }

  /** The actions of the rows of one day. */
  function DayLog(cfg: Setup, items: seq<Item>, rows: seq<Row>, day: int): seq<seq<Action>>
    requires |items| == |rows|
  {
    if items == [] then [] else
      var n := |items| - 1;
      var init := DayLog(cfg, items[..n], rows[..n], day);
      if Observed(cfg, items[n]) && Day(items[n].bar.time) == day then init + [rows[n].actions] else init
  }

  lemma FridayExact(day: int)
    ensures Weekday(day) == 4 <==> day % 7 == 1
  {
  }

  lemma StartExact(cfg: Setup, items: seq<Item>, day: int)
    ensures NewModel(cfg, OfflineWarmup(cfg, items, day), day).session == DayStart(cfg, items, day)
  {
    hide OfflineWarmup, ContextOf, Begin, Weekday;
    FridayExact(day);
    assert CalendarAllows(cfg, day) <==> !Forbidden(cfg, day);
  }

  /** The session that meets an observed item is the offline one of its day. */
  lemma SessionBefore(cfg: Setup, items: seq<Item>, k: nat, r: Replay)
    requires ValidStream(items) && k < |items| && Observed(cfg, items[k]) && Agrees(cfg, items, k, r)
    ensures var day := Day(items[k].bar.time);
            var newDay := r.model.None? || r.model.value.day != day;
            var model := if newDay then NewModel(cfg, Warmup(r.canonical, day), day) else r.model.value;
            var p := Play(DayStart(cfg, items, day), ObservedBars(cfg, items[..k], day));
            p.Some? && model.session == p.value.s
  {
    hide Step, ContextOf, Begin, Inv, RouteOf, Warmup, Forbidden;
    var day := Day(items[k].bar.time);
    DaysNeverBack(cfg, items, k);
    FreezeIsOffline(cfg, items, k, r.canonical);
    StartExact(cfg, items, day);
  }

  lemma RowPrefix(cfg: Setup, items: seq<Item>, k: nat)
    requires k < |items| && ReplayOf(cfg, items[..k + 1]).Ok?
    ensures ReplayOf(cfg, items[..k]).Ok?
    ensures var rows, before := ReplayOf(cfg, items[..k + 1]).value.rows, ReplayOf(cfg, items[..k]).value.rows;
            |rows| == |before| + 1 && rows[..|before|] == before
  {
    hide Observed, RouteOf, ObserveItem;
    assert items[..k + 1][..k] == items[..k];
  }

  /** The row of an observed item carries the actions of one more bar in its day's offline session; any other row
      carries none. */
  lemma RowActions(cfg: Setup, items: seq<Item>, k: nat)
    requires ValidStream(items) && k < |items| && ReplayOf(cfg, items[..k + 1]).Ok?
    ensures var rows, item := ReplayOf(cfg, items[..k + 1]).value.rows, items[k];
            var day := Day(item.bar.time);
            var before := Play(DayStart(cfg, items, day), ObservedBars(cfg, items[..k], day));
            && |rows| == k + 1
            && if Observed(cfg, item) then
                 && before.Some? && Step(before.value.s, item.bar).Some?
                 && rows[k].actions == Step(before.value.s, item.bar).value.actions
               else rows[k].actions == []
  {
    hide Step, ContextOf, Begin, Inv, RouteOf, Warmup, Observed, DayStart, Play, OfflineWarmup;
    assert items[..k + 1][..k] == items[..k] && items[..k + 1][k] == items[k];
    RowPrefix(cfg, items, k);
    OnlineEqualsOffline(cfg, items, k);
    RowsAreOffline(cfg, items, k);
    var r := ReplayOf(cfg, items[..k]).value;
    if Observed(cfg, items[k]) { SessionBefore(cfg, items, k, r); }
  }

  /** The log of a day's offline session is what its rows say. */
  lemma {:induction false} DayLogExact(cfg: Setup, items: seq<Item>, k: nat, day: int)
    requires ValidStream(items) && k <= |items| && ReplayOf(cfg, items[..k]).Ok?
    ensures |ReplayOf(cfg, items[..k]).value.rows| == k
    ensures var p := Play(DayStart(cfg, items, day), ObservedBars(cfg, items[..k], day));
            p.Some? && p.value.log == DayLog(cfg, items[..k], ReplayOf(cfg, items[..k]).value.rows, day)
  {
    hide Step, RouteOf, Observed, DayStart, OfflineWarmup, ReplayOf, Day;
    if k == 0 {
      NoRows(cfg, items);
    } else {
      var n := k - 1;
      var init, item := items[..n], items[n];
      assert items[..k][..n] == init && items[..k][n] == item;
      RowPrefix(cfg, items, n);
      DayLogExact(cfg, items, n, day);
      RowActions(cfg, items, n);
      var rows := ReplayOf(cfg, items[..k]).value.rows;
      assert rows[..n] == ReplayOf(cfg, init).value.rows;
      if Observed(cfg, item) && Day(item.bar.time) == day {
        var before := ObservedBars(cfg, init, day);
        var start := DayStart(cfg, items, day);
        assert (before + [item.bar])[..|before|] == before;
        PlaySnoc(start, before + [item.bar], Play(start, before).value,
            Step(Play(start, before).value.s, item.bar).value);
      }
    }
  }

  lemma NoRows(cfg: Setup, items: seq<Item>)
    ensures ReplayOf(cfg, items[..0]) == Ok(Replay([], None, []))
  {
  }

  /** Every row of an observed item carries exactly the actions told from the day's context, its calendar, the bars
      observed before on that day, and the actions in their rows. */
  lemma RowsForetold(cfg: Setup, items: seq<Item>, k: nat)
    requires ValidStream(items) && k < |items| && ReplayOf(cfg, items[..k + 1]).Ok? && Observed(cfg, items[k])
    ensures var day := Day(items[k].bar.time);
            var rows, bars := ReplayOf(cfg, items[..k + 1]).value.rows, ObservedBars(cfg, items[..k], day);
            && |rows| == k + 1 && |DayLog(cfg, items[..k], rows[..k], day)| == |bars|
            && rows[k].actions == Next(DayContext(cfg, items, day), !Forbidden(cfg, day), bars,
                                       DayLog(cfg, items[..k], rows[..k], day), items[k].bar)
  {
    hide Step, RouteOf, Observed, OfflineWarmup, ReplayOf, Next, Knows, Play, ContextOf, Begin, Forbidden;
    var day := Day(items[k].bar.time);
    var bars := ObservedBars(cfg, items[..k], day);
    RowPrefix(cfg, items, k);
    DayLogExact(cfg, items, k, day);
    RowActions(cfg, items, k);
    var c := DayContext(cfg, items, day);
    SessionForetold(c, !Forbidden(cfg, day), bars);
    var p := Play(DayStart(cfg, items, day), bars).value;
    KnowsLength(c, !Forbidden(cfg, day), bars, p.s, p.log);
    NextBar(c, !Forbidden(cfg, day), bars, p.s, p.log, items[k].bar);
  }

  // ---- Permission ----

  /** After every item the state shown is that of the last observed day; its session may trade exactly if both anchors
      exist, the day is not forbidden, and from the sixth bar on that bar's close lies within one and a half previous
      ranges of the previous close. */
  lemma PermissionExact(cfg: Setup, items: seq<Item>, k: nat)
    requires ValidStream(items) && k < |items| && ReplayOf(cfg, items[..k + 1]).Ok?
    ensures |ReplayOf(cfg, items[..k + 1]).value.rows| == k + 1
    ensures var row := ReplayOf(cfg, items[..k + 1]).value.rows[k];
            match LastObservedDay(cfg, items[..k + 1])
            case None => row.state.None?
            case Some(day) =>
              var bars := ObservedBars(cfg, items[..k + 1], day);
              row.state.Some?
              && (row.state.value.allowed <==> Permitted(DayContext(cfg, items, day), !Forbidden(cfg, day), bars))
  {
    hide Step, RouteOf, Observed, OfflineWarmup, ReplayOf, Play, ContextOf, Begin, Forbidden, ObservedBars, Permitted;
    hide LastObservedDay;
    RowsAreOffline(cfg, items, k + 1);
    var last := LastObservedDay(cfg, items[..k + 1]);
    if last.Some? {
      StartExact(cfg, items, last.value);
      var c, bars := DayContext(cfg, items, last.value), ObservedBars(cfg, items[..k + 1], last.value);
      SessionForetold(c, !Forbidden(cfg, last.value), bars);
    }
  }

  predicate NoBreakout(log: seq<seq<Action>>) {
    forall i, j :: 0 <= i < |log| && 0 <= j < |log[i]| ==> log[i][j].component == Mr
  }

  lemma {:induction false} WithoutBreakout(log: seq<seq<Action>>)
    requires NoBreakout(log) && forall i :: 0 <= i < |log| ==> |log[i]| <= 1
    ensures Open(log).Holding? ==> Open(log).component == Mr
  {
    if log != [] {
      var n := |log| - 1;
      WithoutBreakout(log[..n]);
      assert log == log[..n] + [log[n]];
      assert log[n] != [] ==> log[n][0].component == Mr;
      LongerLog(log[..n], log[n]);
    }
  }

  lemma NextForbidden(c: Context, bars: seq<Bar>, log: seq<seq<Action>>, b: Bar)
    requires |log| == |bars| && (Open(log).Holding? ==> Open(log).component == Mr)
    ensures var acts := Next(c, false, bars, log, b);
            |acts| <= 1 && forall j :: 0 <= j < |acts| ==> acts[j].component == Mr
  {
    hide Open, MrLeaves, MrSells, MrBuys, Stops, MrEntries, Age;
  }

  /** A session that the calendar forbids never touches the breakout leg. */
  lemma {:induction false} ForbiddenSession(c: Context, bars: seq<Bar>)
    ensures Play(Begin(c, false), bars).Some?
    ensures var log := Play(Begin(c, false), bars).value.log;
            |log| == |bars| && NoBreakout(log) && forall i :: 0 <= i < |log| ==> |log[i]| <= 1
  {
    hide Step, Next, Knows, Open, Begin;
    SessionForetold(c, false, bars);
    if bars != [] {
      var n := |bars| - 1;
      ForbiddenSession(c, bars[..n]);
      SessionForetold(c, false, bars[..n]);
      var before := Play(Begin(c, false), bars[..n]).value;
      KnowsLength(c, false, bars[..n], before.s, before.log);
      NextBar(c, false, bars[..n], before.s, before.log, bars[n]);
      WithoutBreakout(before.log);
      NextForbidden(c, bars[..n], before.log, bars[n]);
    }
  }

  /** On a Friday or in the blackout no row carries a breakout action and none shows a permitted session. */
  lemma ForbiddenDays(cfg: Setup, items: seq<Item>, k: nat)
    requires ValidStream(items) && k < |items| && ReplayOf(cfg, items[..k + 1]).Ok? && Observed(cfg, items[k])
    requires var day := Day(items[k].bar.time); day % 7 == 1 || day in cfg.blackout
    ensures |ReplayOf(cfg, items[..k + 1]).value.rows| == k + 1
    ensures var row := ReplayOf(cfg, items[..k + 1]).value.rows[k];
            && row.state.Some? && !row.state.value.allowed
            && forall j :: 0 <= j < |row.actions| ==> row.actions[j].component == Mr
  {
    var day := Day(items[k].bar.time);
    assert items[..k + 1][k] == items[k];
    assert LastObservedDay(cfg, items[..k + 1]) == Some(day);
    hide Step, RouteOf, Observed, OfflineWarmup, ReplayOf, Play, ContextOf, Begin, ObservedBars, LastObservedDay, Open,
        Next;
    var c, bars := DayContext(cfg, items, day), ObservedBars(cfg, items[..k], day);
    PermissionExact(cfg, items, k);
    RowActions(cfg, items, k);
    ForbiddenSession(c, bars);
    SessionForetold(c, false, bars);
    var p := Play(Begin(c, false), bars).value;
    WithoutBreakout(p.log);
    NextBar(c, false, bars, p.s, p.log, items[k].bar);
    NextForbidden(c, bars, p.log, items[k].bar);
  }

  // ---- The finished replay ----

  lemma {:induction false} RowsStay(cfg: Setup, items: seq<Item>, k: nat)
    requires k <= |items| && ReplayOf(cfg, items).Ok?
    ensures ReplayOf(cfg, items[..k]).Ok? && |ReplayOf(cfg, items).value.rows| == |items|
    ensures ReplayOf(cfg, items[..k]).value.rows == ReplayOf(cfg, items).value.rows[..k]
    decreases |items|
  {
    hide ObserveItem, Observed, RouteOf;
    if items == [] {
      assert items[..k] == items;
    } else {
      var n := |items| - 1;
      if k <= n {
        RowsStay(cfg, items[..n], k);
        assert items[..n][..k] == items[..k];
      } else {
        RowsStay(cfg, items[..n], n);
        assert items[..k] == items;
      }
    }
  }

  /** The rows of a successful replay: on each observed item of a forbidden day a session that may not trade and no
      breakout action; on any other day with both anchors a session that may trade until the sixth bar, and from then
      on exactly if that bar closed within one and a half ranges; and always the actions told from the stream. */
  lemma ExpectedRowsTold(cfg: Setup, items: seq<Item>, k: nat)
    requires ExpectedRows(cfg, items).Ok? && k < |items| && Observed(cfg, items[k])
    ensures |ExpectedRows(cfg, items).value| == |items|
    ensures var rows, day := ExpectedRows(cfg, items).value, Day(items[k].bar.time);
            var c, bars := DayContext(cfg, items, day), ObservedBars(cfg, items[..k], day);
            && rows[k].state.Some?
            && (rows[k].state.value.allowed <==> Permitted(c, !Forbidden(cfg, day), bars + [items[k].bar]))
            && (Forbidden(cfg, day) ==> forall j :: 0 <= j < |rows[k].actions| ==> rows[k].actions[j].component == Mr)
            && |DayLog(cfg, items[..k], rows[..k], day)| == |bars|
            && rows[k].actions ==
                 Next(c, !Forbidden(cfg, day), bars, DayLog(cfg, items[..k], rows[..k], day), items[k].bar)
  {
    hide Step, RouteOf, Observed, OfflineWarmup, ReplayOf, Play, ContextOf, Begin, ObservedBars, LastObservedDay, Next,
        DayLog;
    hide Permitted, ValidStream, Forbidden, NoBreakout;
    var day := Day(items[k].bar.time);
    ExpectedIsReplay(cfg, items);
    ObservedLast(cfg, items, k);
    RowsStay(cfg, items, k + 1);
    RowsStay(cfg, items, k);
    PermissionExact(cfg, items, k);
    if Forbidden(cfg, day) { ForbiddenDays(cfg, items, k) by { ForbiddenExact(cfg, day); } }
    RowsForetold(cfg, items, k);
    var rows := ExpectedRows(cfg, items).value;
    assert rows[..k + 1][..k] == rows[..k];
  }

  lemma ForbiddenExact(cfg: Setup, day: int)
    ensures Forbidden(cfg, day) <==> day % 7 == 1 || day in cfg.blackout
  {
  }

  lemma ExpectedIsReplay(cfg: Setup, items: seq<Item>)
    requires ExpectedRows(cfg, items).Ok?
    ensures ValidStream(items) && ReplayOf(cfg, items).Ok?
            && ExpectedRows(cfg, items).value == ReplayOf(cfg, items).value.rows
  {
  }

  lemma ObservedLast(cfg: Setup, items: seq<Item>, k: nat)
    requires k < |items| && Observed(cfg, items[k])
    ensures var day := Day(items[k].bar.time);
            && LastObservedDay(cfg, items[..k + 1]) == Some(day)
            && ObservedBars(cfg, items[..k + 1], day) == ObservedBars(cfg, items[..k], day) + [items[k].bar]
  {
    assert items[..k + 1][k] == items[k] && items[..k + 1][..k] == items[..k];
  }
}
