/** The calendar of the RI replay in plain numbers: which bars count, where they go, and what a context is. */
module RiRoutes {
  import opened Results
  import opened Calendar
  import opened Increasing
  import opened RiModel
  import opened RiContext
  import opened RiHistory

  /** Moscow days from 1970-01-01, a Thursday. */
  predicate Weekday5(day: int) { day % 7 != 2 && day % 7 != 3 }

  /** Seconds from local midnight to the opening: nine o'clock, from 2026-07-14 seven. */
  function OpeningSecond(day: int): int { if day >= 20648 then 7 * 3600 else 9 * 3600 }

  /** A bar on the ten-minute grid of a weekday session, from the opening to 23:40. */
  lemma ModelBarExact(b: Bar)
    ensures var day, second := (b.time + 10800) / 86400, (b.time + 10800) % 86400;
            IsModelBar(b) <==>
              Weekday5(day) && second % 600 == 0 && OpeningSecond(day) <= second <= 23 * 3600 + 40 * 60
  {
    var x := b.time + 10800;
    var day, second := x / 86400, x % 86400;
    Minutes(x);
    Grid(second);
    assert Weekend(day) <==> !Weekday5(day);
    assert OpeningMinute(day) * 60 == OpeningSecond(day);
    var minute := second / 60;
    assert second % 600 == 0 ==> second == 60 * minute;
  }

  lemma Minutes(x: int)
    ensures x % 60 == (x % 86400) % 60
  {
    var q, r := x / 86400, x % 86400;
    var k := 1440 * q + r / 60;
    assert x == 60 * k + r % 60;
  }

  lemma Grid(second: int)
    requires 0 <= second
    ensures second % 600 == 0 <==> second / 60 % 10 == 0 && second % 60 == 0
  {
    var m := second / 60;
    assert second == 60 * m + second % 60;
    assert m == 10 * (m / 10) + m % 10;
    assert second == 600 * (m / 10) + (60 * (m % 10) + second % 60);
  }

  /** `next` is the first weekday after `day`. */
  ghost predicate NextWorkingDay(day: int, next: int) {
    day < next && Weekday5(next) && forall d :: day < d < next ==> !Weekday5(d)
  }

  lemma DayAfter(d: int)
    ensures Weekend(d) <==> !Weekday5(d)
    ensures Weekday(d) == 5 ==> Weekday(d + 1) == 6
    ensures Weekday(d) == 6 ==> Weekday(d + 1) == 0
    ensures 0 <= Weekday(d) <= 6
  {
  }

  lemma NextWeekdayExact(day: int)
    ensures NextWorkingDay(day, NextWeekday(day + 1))
  {
    hide Weekday, Weekday5;
    var d := day + 1;
    DayAfter(d);
    DayAfter(d + 1);
    DayAfter(d + 2);
    assert Weekday(d) == 5 ==> NextWeekday(d) == NextWeekday(d + 1) == d + 2;
  }

  lemma OneNextDay(day: int, a: int, b: int)
    requires NextWorkingDay(day, a) && NextWorkingDay(day, b)
    ensures a == b
  {
  }

  /** The instant before which a bar must have been available: the opening of the next weekday. */
  lemma CutoffExact(day: int, next: int)
    requires NextWorkingDay(day, next)
    ensures NextCutoff(day) == next * 86400 + OpeningSecond(next) - 10800
  {
    NextWeekdayExact(day);
    OneNextDay(day, next, NextWeekday(day + 1));
  }

  /** Each route by its own condition: bars off the session grid; bars available only at or after the next opening;
      recovered bars where recovery is off; recovered bars other than the closing one; and the rest is context. */
  lemma RouteExactly(item: Item, policy: Policy, next: int)
    requires NextWorkingDay((item.bar.time + 10800) / 86400, next)
    ensures var b := item.bar;
            var late := item.available >= next * 86400 + OpeningSecond(next) - 10800;
            var recovered, closing := b.origin == HistoryGap, (b.time + 10800) % 86400 / 60 == 23 * 60 + 40;
            && (RouteOf(item, policy) == NonModelBar <==> !IsModelBar(b))
            && (RouteOf(item, policy) == AtOrAfterCutoff <==> IsModelBar(b) && late)
            && (RouteOf(item, policy) == RecoveryDisabled <==>
                  IsModelBar(b) && !late && recovered && policy == RuntimeAcceptedOnly)
            && (RouteOf(item, policy) == NonClosingRecovery <==>
                  IsModelBar(b) && !late && recovered && policy == ConfirmedClosingContext && !closing)
            && (RouteOf(item, policy) == ContextRoute <==>
                  IsModelBar(b) && !late && (recovered ==> policy == ConfirmedClosingContext && closing))
  {
    hide IsModelBar, NextCutoff, OpeningSecond;
    CutoffExact((item.bar.time + 10800) / 86400, next);
  }

  /** An item is observed exactly if it is routed as context, came live, and closed and became available on one local
      day, no earlier than the first session. */
  lemma ObservedExactly(cfg: Setup, item: Item, day: int)
    requires day * 86400 <= item.bar.time + 10800 < (day + 1) * 86400
    ensures Observed(cfg, item) <==>
      && RouteOf(item, cfg.policy) == ContextRoute && item.bar.origin == Live && cfg.first <= day
      && day * 86400 <= item.available + 10800 < (day + 1) * 86400
  {
    hide RouteOf;
  }

  // ---- The stream ----

  function Times(items: seq<Item>): set<int> { set i | 0 <= i < |items| :: items[i].bar.time }

  /** Positive prices, the extremes around open and close, no negative volume, and not seen before its end. */
  predicate Admissible(item: Item) {
    var b := item.bar;
    && 0.0 < b.l && b.l <= b.o && b.l <= b.close && b.o <= b.h && b.close <= b.h && !(b.v < 0.0)
    && item.available - b.time >= 600
  }

  /** Neighbours in order: available no later and, at the same time, with the earlier bar first. */
  predicate InOrder(a: Item, b: Item) {
    a.available <= b.available && (a.available == b.available ==> a.bar.time < b.bar.time)
  }

  lemma DistinctTimes(items: seq<Item>)
    ensures |Times(items)| == |items| <==>
      forall i, j :: 0 <= i < j < |items| ==> items[i].bar.time != items[j].bar.time
  {
    var times := seq(|items|, i requires 0 <= i < |items| => items[i].bar.time);
    DistinctExact(times);
    assert Members(times) == Times(items) by {
      forall t | t in Times(items) ensures t in times {
        var i :| 0 <= i < |items| && items[i].bar.time == t;
        assert times[i] == t;
      }
    }
    assert forall i :: 0 <= i < |items| ==> times[i] == items[i].bar.time;
  }

  lemma {:induction false} OrderReaches(items: seq<Item>, i: nat, j: nat)
    requires i < j < |items| && forall k :: 0 < k < |items| ==> InOrder(items[k - 1], items[k])
    ensures Before(items[i], items[j])
  {
    if i < j - 1 { OrderReaches(items, i, j - 1); }
    assert InOrder(items[j - 1], items[j]);
  }

  /** A stream passes the checks if and only if every item is admissible, neighbours are in order, and there are as
      many times as items. */
  lemma StreamExact(items: seq<Item>)
    ensures ValidStream(items) <==>
      && (forall i :: 0 <= i < |items| ==> Admissible(items[i]))
      && (forall i :: 0 < i < |items| ==> InOrder(items[i - 1], items[i]))
      && |Times(items)| == |items|
  {
    DistinctTimes(items);
    hide Times;
    assert forall i :: 0 <= i < |items| ==>
      (Admissible(items[i]) <==> ValidBar(items[i].bar) && items[i].available >= items[i].bar.time + 600);
    assert forall a, b :: Before(a, b) <==> InOrder(a, b);
    if forall i :: 0 < i < |items| ==> InOrder(items[i - 1], items[i]) {
      forall i, j | 0 <= i < j < |items| ensures Before(items[i], items[j]) { OrderReaches(items, i, j); }
    }
  }

  // ---- The context ----

  /** Which bars a context counts: model bars, and recovered ones only to close a day, where that is the policy. */
  lemma CountsExactly(policy: Policy, b: Bar)
    ensures Counts(policy, b) <==>
      && IsModelBar(b)
      && (b.origin == HistoryGap ==>
            policy == ConfirmedClosingContext && 0 <= (b.time + 10800) % 86400 - (23 * 3600 + 40 * 60) < 60)
  {
    hide IsModelBar;
  }

  /** The replay has asked as much before: every bar of a warm-up drawn from items routed as context counts. */
  lemma {:induction false} WarmupCounts(canonical: seq<Item>, policy: Policy, day: int)
    requires forall i :: 0 <= i < |canonical| ==> RouteOf(canonical[i], policy) == ContextRoute
    ensures forall b :: b in Warmup(canonical, day) ==> Counts(policy, b)
  {
    hide IsModelBar, NextCutoff;
    if canonical != [] { WarmupCounts(canonical[..|canonical| - 1], policy, day); }
  }

  /** A day's bars make a complete session: enough of them, one in the first ten minutes after the opening or before,
      one at 23:30 or later. */
  ghost predicate WholeSession(day: int, bars: seq<Bar>) {
    && |bars| >= (if day >= 20648 then 92 else 80)
    && (exists b :: b in bars && (b.time + 10800) % 86400 / 60 <= (if day >= 20648 then 7 * 60 + 10 else 9 * 60 + 10))
    && (exists b :: b in bars && (b.time + 10800) % 86400 / 60 >= 23 * 60 + 30)
  }

  lemma SameDayOrder(a: int, b: int)
    requires Day(a) == Day(b) && a <= b
    ensures MinuteOfDay(a) <= MinuteOfDay(b)
  {
    assert a + OFFSET == Day(a) * DAY + (a + OFFSET) % DAY;
    assert b + OFFSET == Day(b) * DAY + (b + OFFSET) % DAY;
  }

  lemma CompleteExact(day: int, bars: seq<Bar>)
    requires forall b :: b in bars ==> Day(b.time) == day
    ensures Complete(day, bars) <==> WholeSession(day, bars)
  {
    hide Day, MinuteOfDay;
    if bars != [] {
      SummariesExact(bars);
      var first, last := Earliest(bars), Latest(bars);
      forall b | b in bars ensures MinuteOfDay(first.time) <= MinuteOfDay(b.time) <= MinuteOfDay(last.time) {
        SameDayOrder(first.time, b.time);
        SameDayOrder(b.time, last.time);
      }
      MinuteExact(bars);
    }
  }

  lemma MinuteExact(bars: seq<Bar>)
    ensures forall b :: b in bars ==> MinuteOfDay(b.time) == (b.time + 10800) % 86400 / 60
  {
  }

  /** The anchor describes its day: the extremes, their difference, the number of bars, and a close that no later bar
      follows. */
  ghost predicate Describes(a: Anchor, day: int, bars: seq<Bar>) {
    && a.date == day && a.bars == |bars| && a.range == a.high - a.low
    && (forall b :: b in bars ==> a.low <= b.l && b.h <= a.high)
    && (exists b :: b in bars && b.h == a.high) && (exists b :: b in bars && b.l == a.low)
    && (exists b :: b in bars && b.close == a.close && forall x :: x in bars ==> x.time <= b.time)
  }

  ghost predicate WholeDay(warmup: seq<Bar>, policy: Policy, day: int) {
    WholeSession(day, DayBars(warmup, policy, day))
  }

  lemma WholeDayExact(warmup: seq<Bar>, policy: Policy, day: int)
    ensures WholeDay(warmup, policy, day) <==> day in CompleteDays(warmup, policy)
  {
    hide DayBars, Complete, CompleteDays, WholeSession;
    DayBarsExact(warmup, policy, day);
    CompleteExact(day, DayBars(warmup, policy, day));
    CompleteDaysExact(warmup, policy, day);
  }

  lemma AnchorExact(day: int, bars: seq<Bar>)
    requires bars != []
    ensures Describes(AnchorOf(day, bars), day, bars)
  {
    SummariesExact(bars);
  }

  /** The previous anchor describes the last complete day of the warm-up, the second one the last but one; each is
      missing exactly if there is no such day. */
  lemma ContextExact(warmup: seq<Bar>, policy: Policy)
    ensures var c := ContextOf(warmup, policy);
            && (c.previous.Some? <==> exists d :: WholeDay(warmup, policy, d))
            && (c.previous.Some? ==>
                  var a := c.previous.value;
                  && WholeDay(warmup, policy, a.date) && (forall d :: WholeDay(warmup, policy, d) ==> d <= a.date)
                  && Describes(a, a.date, DayBars(warmup, policy, a.date)))
            && (c.previous2.Some? <==>
                  c.previous.Some? && exists d :: WholeDay(warmup, policy, d) && d != c.previous.value.date)
            && (c.previous.Some? && c.previous2.Some? ==>
                  var a := c.previous2.value;
                  && a.date < c.previous.value.date && WholeDay(warmup, policy, a.date)
                  && (forall d :: WholeDay(warmup, policy, d) && d != c.previous.value.date ==> d <= a.date)
                  && Describes(a, a.date, DayBars(warmup, policy, a.date)))
  {
    hide DayBars, CompleteDays, WholeDay, Describes, AnchorOf;
    forall d ensures WholeDay(warmup, policy, d) <==> d in CompleteDays(warmup, policy) {
      WholeDayExact(warmup, policy, d);
    }
    var days := CompleteDays(warmup, policy);
    if Greatest(days).Some? {
      var rest := days - {Greatest(days).value};
      assert SecondGreatest(days) == Greatest(rest);
      assert forall d :: d in rest <==> WholeDay(warmup, policy, d) && d != Greatest(days).value;
    }
    forall d | d in CompleteDays(warmup, policy)
      ensures DayBars(warmup, policy, d) != []
      ensures Describes(AnchorOf(d, DayBars(warmup, policy, d)), d, DayBars(warmup, policy, d))
      ensures AnchorOf(d, DayBars(warmup, policy, d)).date == d
    {
      DescribedDay(warmup, policy, d);
    }
  }

  lemma DescribedDay(warmup: seq<Bar>, policy: Policy, day: int)
    requires day in CompleteDays(warmup, policy)
    ensures var bars := DayBars(warmup, policy, day);
            bars != [] && Describes(AnchorOf(day, bars), day, bars) && AnchorOf(day, bars).date == day
  {
    CompleteDaysExact(warmup, policy, day);
    AnchorExact(day, DayBars(warmup, policy, day));
  }
}
