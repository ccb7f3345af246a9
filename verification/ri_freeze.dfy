/** The online replay against an offline definition that may look at the whole stream. */
module RiFreeze {
  import opened Results
  import opened Calendar
  import opened RiModel
  import opened RiContext
  import opened RiSafety
  import opened RiHistory

  // ---- Offline definition ----

  /** Everything ever routed as context with an earlier date, in stream order. */
  function OfflineWarmup(cfg: Setup, items: seq<Item>, day: int): seq<Bar> {
    if items == [] then [] else
      var init, last := OfflineWarmup(cfg, items[..|items| - 1], day), items[|items| - 1];
      if RouteOf(last, cfg.policy) == ContextRoute && Day(last.bar.time) < day then init + [last.bar] else init
  }

  /** The bars observed on `day`, in stream order. */
  function ObservedBars(cfg: Setup, items: seq<Item>, day: int): seq<Bar> {
    if items == [] then [] else
      var init, last := ObservedBars(cfg, items[..|items| - 1], day), items[|items| - 1];
      if Observed(cfg, last) && Day(last.bar.time) == day then init + [last.bar] else init
  }

  function LastObservedDay(cfg: Setup, items: seq<Item>): Option<int> {
    if items == [] then None
    else if Observed(cfg, items[|items| - 1]) then Some(Day(items[|items| - 1].bar.time))
    else LastObservedDay(cfg, items[..|items| - 1])
  }

  /** The session that a reader of the whole stream expects after the first `k` items. */
  ghost function OfflineModel(cfg: Setup, items: seq<Item>, k: nat): Option<Model>
    requires k <= |items|
  {
    match LastObservedDay(cfg, items[..k])
    case None => None
    case Some(day) =>
      match Play(NewModel(cfg, OfflineWarmup(cfg, items, day), day).session, ObservedBars(cfg, items[..k], day))
      case None => None
      case Some(p) => Some(Model(day, p.s))
  }

  // ---- Calendar facts ----

  lemma CutoffsGrow(d1: int, d2: int)
    requires d1 <= d2
    ensures Cutoff(d1) <= Cutoff(d2)
  {
  }

  lemma NextCutoffBounds(d1: int, d2: int)
    requires d1 < d2 && !Weekend(d2)
    ensures NextCutoff(d1) <= Cutoff(d2)
  {
    assert NextWeekday(d1 + 1) <= d2;
    CutoffsGrow(NextWeekday(d1 + 1), d2);
  }

  /** A context item of an earlier date is available before a later weekday opens. */
  lemma ContextIsEarly(cfg: Setup, item: Item, day: int)
    requires RouteOf(item, cfg.policy) == ContextRoute && Day(item.bar.time) < day && !Weekend(day)
    ensures item.available < Cutoff(day)
  {
    NextCutoffBounds(Day(item.bar.time), day);
  }

  /** An observed item is available only after its own day has opened. */
  lemma ObservedIsLate(cfg: Setup, item: Item)
    requires Observed(cfg, item) && item.available >= item.bar.time + 600
    ensures item.available > Cutoff(Day(item.bar.time)) && !Weekend(Day(item.bar.time))
  {
    var ts := item.bar.time;
    assert ts + OFFSET == Day(ts) * DAY + (ts + OFFSET) % DAY;
  }

  // ---- Freezing ----

  ghost predicate Canonical(cfg: Setup, items: seq<Item>, canonical: seq<Item>) {
    forall day :: Warmup(canonical, day) == EarlyContext(cfg, items, day)
  }

  /** The online filter read over the stream itself. */
  function EarlyContext(cfg: Setup, items: seq<Item>, day: int): seq<Bar> {
    if items == [] then [] else
      var init, last := EarlyContext(cfg, items[..|items| - 1], day), items[|items| - 1];
      if RouteOf(last, cfg.policy) == ContextRoute && last.available < Cutoff(day) && Day(last.bar.time) < day
      then init + [last.bar] else init
  }

  lemma {:induction false} EarlyIsAll(cfg: Setup, items: seq<Item>, day: int)
    requires !Weekend(day)
    ensures EarlyContext(cfg, items, day) == OfflineWarmup(cfg, items, day)
  {
    if items != [] {
      var last := items[|items| - 1];
      EarlyIsAll(cfg, items[..|items| - 1], day);
      if RouteOf(last, cfg.policy) == ContextRoute && Day(last.bar.time) < day { ContextIsEarly(cfg, last, day); }
    }
  }

  lemma NotContext(cfg: Setup, items: seq<Item>, k: nat, i: nat, day: int)
    requires ValidStream(items) && k <= i < |items| && Observed(cfg, items[k]) && Day(items[k].bar.time) == day
    ensures !(RouteOf(items[i], cfg.policy) == ContextRoute && Day(items[i].bar.time) < day)
  {
    hide RouteOf;
    ObservedIsLate(cfg, items[k]);
    assert k < i ==> Before(items[k], items[i]);
    if RouteOf(items[i], cfg.policy) == ContextRoute && Day(items[i].bar.time) < day {
      ContextIsEarly(cfg, items[i], day);
    }
  }

  /** Once an item of `day` has been observed, nothing later in the stream belongs to the warm-up of that day. */
  lemma {:induction false} NothingLater(cfg: Setup, items: seq<Item>, k: nat, day: int)
    requires ValidStream(items) && k < |items| && Observed(cfg, items[k]) && Day(items[k].bar.time) == day
    ensures OfflineWarmup(cfg, items, day) == OfflineWarmup(cfg, items[..k], day)
    decreases |items|
  {
    hide RouteOf, Observed;
    var n := |items| - 1;
    NotContext(cfg, items, k, n, day);
    if k < n {
      NothingLater(cfg, items[..n], k, day);
      assert items[..n][..k] == items[..k];
    }
  }

  /** The online warm-up equals the offline one, whichever bar of the day is observed first. */
  lemma FreezeIsOffline(cfg: Setup, items: seq<Item>, k: nat, canonical: seq<Item>)
    requires ValidStream(items) && k < |items| && Observed(cfg, items[k])
    requires Canonical(cfg, items[..k], canonical)
    ensures var day := Day(items[k].bar.time); Warmup(canonical, day) == OfflineWarmup(cfg, items, day)
  {
    var day := Day(items[k].bar.time);
    ObservedIsLate(cfg, items[k]);
    EarlyIsAll(cfg, items[..k], day);
    NothingLater(cfg, items, k, day);
  }

  // ---- Days never go back ----

  lemma {:induction false} DaysNeverBack(cfg: Setup, items: seq<Item>, k: nat)
    requires ValidStream(items) && k < |items| && Observed(cfg, items[k])
    ensures var last := LastObservedDay(cfg, items[..k]);
            var day := Day(items[k].bar.time);
            && (last.Some? ==> last.value <= day)
            && (last != Some(day) ==> ObservedBars(cfg, items[..k], day) == [])
  {
    DaysNeverBackFrom(cfg, items, k, k);
  }

  lemma {:induction false} DaysNeverBackFrom(cfg: Setup, items: seq<Item>, k: nat, j: nat)
    requires ValidStream(items) && j <= k < |items| && Observed(cfg, items[k])
    ensures var last := LastObservedDay(cfg, items[..j]);
            var day := Day(items[k].bar.time);
            && (last.Some? ==> last.value <= day)
            && (last.None? || last.value < day ==> ObservedBars(cfg, items[..j], day) == [])
    decreases k, j
  {
    hide RouteOf;
    if j > 0 {
      if Observed(cfg, items[j - 1]) { DaysNeverBackFrom(cfg, items, j - 1, j - 1); }
      var init := items[..j];
      assert init[..j - 1] == items[..j - 1] && init[j - 1] == items[j - 1];
      DaysNeverBackFrom(cfg, items, k, j - 1);
      assert Before(items[j - 1], items[k]);
      DayMonotone(items[j - 1].available, items[k].available);
    }
  }

  // ---- Online equals offline ----

  lemma CanonicalOn(cfg: Setup, items: seq<Item>, canonical: seq<Item>, item: Item)
    requires Canonical(cfg, items, canonical)
    ensures var canonical' := if RouteOf(item, cfg.policy) == ContextRoute then canonical + [item] else canonical;
            Canonical(cfg, items + [item], canonical')
  {
    var canonical' := if RouteOf(item, cfg.policy) == ContextRoute then canonical + [item] else canonical;
    assert (items + [item])[..|items|] == items;
    forall day ensures Warmup(canonical', day) == EarlyContext(cfg, items + [item], day) {
      assert Warmup(canonical, day) == EarlyContext(cfg, items, day);
      if canonical' != canonical { assert canonical'[..|canonical|] == canonical; }
    }
  }

  ghost predicate Agrees(cfg: Setup, items: seq<Item>, k: nat, r: Replay)
    requires k <= |items|
  {
    && Canonical(cfg, items[..k], r.canonical)
    && r.model == OfflineModel(cfg, items, k)
    && (r.model.None? <==> LastObservedDay(cfg, items[..k]).None?)
    && (r.model.Some? ==> LastObservedDay(cfg, items[..k]) == Some(r.model.value.day) && Inv(r.model.value.session))
  }

  /** After every accepted prefix the online model is the offline one: each day has a single session, built from
      the offline warm-up and stepped through exactly the bars observed on that day. */
  lemma {:induction false} OnlineEqualsOffline(cfg: Setup, items: seq<Item>, k: nat)
    requires ValidStream(items) && k <= |items| && ReplayOf(cfg, items[..k]).Ok?
    ensures Agrees(cfg, items, k, ReplayOf(cfg, items[..k]).value)
  {
    if k > 0 {
      var init, item := items[..k - 1], items[k - 1];
      assert items[..k][..k - 1] == init && items[..k][k - 1] == item && items[..k] == init + [item];
      OnlineEqualsOffline(cfg, items, k - 1);
      var r := ReplayOf(cfg, init).value;
      CanonicalOn(cfg, init, r.canonical, item);
      if Observed(cfg, item) {
        ModelOn(cfg, items, k - 1, r);
      } else {
        ModelStays(cfg, items, k - 1);
      }
    }
  }

  lemma ModelStays(cfg: Setup, items: seq<Item>, k: nat)
    requires k < |items| && !Observed(cfg, items[k])
    ensures LastObservedDay(cfg, items[..k + 1]) == LastObservedDay(cfg, items[..k])
    ensures OfflineModel(cfg, items, k + 1) == OfflineModel(cfg, items, k)
  {
    assert items[..k + 1][..k] == items[..k];
  }

  lemma ModelOn(cfg: Setup, items: seq<Item>, k: nat, r: Replay)
    requires ValidStream(items) && k < |items| && Observed(cfg, items[k])
    requires Agrees(cfg, items, k, r) && ObserveItem(cfg, r, items[k]).Ok?
    ensures var day, model := Day(items[k].bar.time), ObserveItem(cfg, r, items[k]).value.0;
            && LastObservedDay(cfg, items[..k + 1]) == Some(day) && model.day == day && Inv(model.session)
            && OfflineModel(cfg, items, k + 1) == Some(model)
  {
    hide Step, ContextOf, Begin, Inv, RouteOf, Warmup;
    var day, bar := Day(items[k].bar.time), items[k].bar;
    var now := items[..k + 1];
    assert now[..k] == items[..k] && now[k] == items[k];
    DaysNeverBack(cfg, items, k);
    FreezeIsOffline(cfg, items, k, r.canonical);
    var start := NewModel(cfg, OfflineWarmup(cfg, items, day), day).session;
    assert Inv(start) by { BeginGood(ContextOf(OfflineWarmup(cfg, items, day), cfg.policy), CalendarAllows(cfg, day)); }
    var before := ObservedBars(cfg, items[..k], day);
    var bars := before + [bar];
    assert ObservedBars(cfg, now, day) == bars && bars[..|before|] == before;
    PlayKeeps(start, before);
    StepKeeps(Play(start, before).value.s, bar);
    PlaySnoc(start, bars, Play(start, before).value, Step(Play(start, before).value.s, bar).value);
  }

  ghost function OfflineState(cfg: Setup, items: seq<Item>, k: nat): Option<Session>
    requires k <= |items|
  {
    match OfflineModel(cfg, items, k)
    case None => None
    case Some(model) => Some(model.session)
  }

  /** Row by row, the replay reports the offline state and the offline routing. */
  lemma {:induction false} RowsAreOffline(cfg: Setup, items: seq<Item>, k: nat)
    requires ValidStream(items) && k <= |items| && ReplayOf(cfg, items[..k]).Ok?
    ensures var rows := ReplayOf(cfg, items[..k]).value.rows;
            && |rows| == k
            && forall i :: 0 <= i < k ==>
                 && rows[i].state == OfflineState(cfg, items, i + 1)
                 && rows[i].observed == Observed(cfg, items[i]) && rows[i].route == RouteOf(items[i], cfg.policy)
  {
    hide Step, ContextOf, Begin, Inv, RouteOf, Warmup, OfflineModel, Observed;
    if k > 0 {
      assert items[..k][..k - 1] == items[..k - 1] && items[..k][k - 1] == items[k - 1];
      RowsAreOffline(cfg, items, k - 1);
      OnlineEqualsOffline(cfg, items, k - 1);
      OnlineEqualsOffline(cfg, items, k);
    }
  }

  // ---- Days end flat ----

  /** The last observed bar of every day lies at or after 23:00. */
  predicate DaysRunToEleven(cfg: Setup, items: seq<Item>) {
    forall i :: 0 <= i < |items| && Observed(cfg, items[i])
                && (forall j ::
                     i < j < |items| && Observed(cfg, items[j]) ==> Day(items[j].bar.time) != Day(items[i].bar.time))
      ==> MinuteOfDay(items[i].bar.time) >= ELEVEN_PM
  }

  function LastObserved(cfg: Setup, items: seq<Item>, k: nat): Option<nat>
    requires k <= |items|
    ensures LastObserved(cfg, items, k).Some? ==> LastObserved(cfg, items, k).value < k
  {
    if k == 0 then None else if Observed(cfg, items[k - 1]) then Some(k - 1) else LastObserved(cfg, items, k - 1)
  }

  lemma {:induction false} LastObservedExact(cfg: Setup, items: seq<Item>, k: nat)
    requires k <= |items|
    ensures match LastObserved(cfg, items, k)
            case None => LastObservedDay(cfg, items[..k]) == None && forall j :: 0 <= j < k ==> !Observed(cfg, items[j])
            case Some(i) =>
              && Observed(cfg, items[i]) && LastObservedDay(cfg, items[..k]) == Some(Day(items[i].bar.time))
              && forall j :: i < j < k ==> !Observed(cfg, items[j])
  {
    hide Observed;
    if k > 0 {
      assert items[..k][..k - 1] == items[..k - 1];
      LastObservedExact(cfg, items, k - 1);
    }
  }

  /** When the next observed item, if any, starts a new day, the last observed bar closed its own day. */
  lemma DayIsOver(cfg: Setup, items: seq<Item>, k: nat)
    requires ValidStream(items) && DaysRunToEleven(cfg, items) && k <= |items|
    requires LastObserved(cfg, items, k).Some?
    requires k < |items| ==> Observed(cfg, items[k]) && LastObservedDay(cfg, items[..k]) != Some(Day(items[k].bar.time))
    ensures MinuteOfDay(items[LastObserved(cfg, items, k).value].bar.time) >= ELEVEN_PM
  {
    hide Observed, ValidStream, LastObserved, LastObservedDay, DaysRunToEleven, Day, MinuteOfDay;
    LastObservedExact(cfg, items, k);
    var i := LastObserved(cfg, items, k).value;
    if k < |items| { DaysNeverBack(cfg, items, k); }
    forall j | i < j < |items| && Observed(cfg, items[j]) ensures Day(items[j].bar.time) != Day(items[i].bar.time) {
      assert k <= j;
      LaterDay(cfg, items, k, j);
    }
    LastOfItsDay(cfg, items, i);
  }

  lemma LastOfItsDay(cfg: Setup, items: seq<Item>, i: nat)
    requires DaysRunToEleven(cfg, items) && i < |items| && Observed(cfg, items[i])
    requires forall j :: i < j < |items| && Observed(cfg, items[j]) ==> Day(items[j].bar.time) != Day(items[i].bar.time)
    ensures MinuteOfDay(items[i].bar.time) >= ELEVEN_PM
  {
    hide Observed, Day, MinuteOfDay;
  }

  lemma LaterDay(cfg: Setup, items: seq<Item>, k: nat, j: nat)
    requires ValidStream(items) && k <= j < |items| && Observed(cfg, items[k]) && Observed(cfg, items[j])
    ensures Day(items[k].bar.time) <= Day(items[j].bar.time)
  {
    assert k < j ==> Before(items[k], items[j]);
    DayMonotone(items[k].available, items[j].available);
  }

  ghost predicate FlatAfterEleven(cfg: Setup, items: seq<Item>, k: nat, r: Result<Replay, Error>)
    requires k <= |items|
  {
    && r.Ok?
    && (r.value.model.Some? <==> LastObserved(cfg, items, k).Some?)
    && (r.value.model.Some? ==>
          MinuteOfDay(items[LastObserved(cfg, items, k).value].bar.time) >= ELEVEN_PM ==>
            IsFlat(r.value.model.value.session))
  }

  /** If every day is observed up to 23:00, no check for an unresolved position ever raises. */
  lemma {:induction false} NeverUnresolved(cfg: Setup, items: seq<Item>, k: nat)
    requires ValidStream(items) && DaysRunToEleven(cfg, items) && k <= |items|
    ensures FlatAfterEleven(cfg, items, k, ReplayOf(cfg, items[..k]))
  {
    hide Step, ContextOf, Begin, Inv, RouteOf, Warmup, DaysRunToEleven, OfflineModel, Observed;
    if k > 0 {
      var init, item := items[..k - 1], items[k - 1];
      assert items[..k][..k - 1] == init && items[..k][k - 1] == item;
      NeverUnresolved(cfg, items, k - 1);
      OnlineEqualsOffline(cfg, items, k - 1);
      LastObservedExact(cfg, items, k - 1);
      var r := ReplayOf(cfg, init).value;
      if Observed(cfg, item) {
        var day := Day(item.bar.time);
        if r.model.Some? && r.model.value.day != day { DayIsOver(cfg, items, k - 1); }
        var c := ContextOf(Warmup(r.canonical, day), cfg.policy);
        BeginGood(c, CalendarAllows(cfg, day));
        var s := if r.model.Some? && r.model.value.day == day then r.model.value.session
            else Begin(c, CalendarAllows(cfg, day));
        StepKeeps(s, item.bar);
        if MinuteOfDay(item.bar.time) >= ELEVEN_PM { FlatByEleven(s, item.bar); }
      }
    }
  }

  /** A valid stream observed every day up to 23:00 is replayed to the end without an error. */
  lemma ReplaySucceeds(cfg: Setup, items: seq<Item>)
    requires ValidStream(items) && DaysRunToEleven(cfg, items)
    requires exists i :: 0 <= i < |items| && Observed(cfg, items[i])
    ensures ExpectedRows(cfg, items).Ok?
  {
    hide Observed, IsFlat;
    assert items[..|items|] == items;
    NeverUnresolved(cfg, items, |items|);
    LastObservedExact(cfg, items, |items|);
    DayIsOver(cfg, items, |items|);
  }
}
