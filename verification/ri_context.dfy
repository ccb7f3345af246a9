/** The daily context: the two newest complete sessions of a warm-up. */
module RiContext {
  import opened Results
  import opened Calendar
  import opened Increasing
  import opened Numbers
  import opened RiModel

  datatype Policy = RuntimeAcceptedOnly | ConfirmedClosingContext

  /** 2026-07-14, the first day that opens at 07:00. */
  const EARLY_OPENING := 20648

  const LAST_MINUTE := 1420

  function OpeningMinute(day: int): int { if day < EARLY_OPENING then 540 else 420 }

  predicate IsModelBar(b: Bar) {
    && !Weekend(Day(b.time))
    && MinuteOfDay(b.time) % 10 == 0 && (b.time + OFFSET) % 60 == 0
    && OpeningMinute(Day(b.time)) <= MinuteOfDay(b.time) <= LAST_MINUTE
  }

  predicate Counts(policy: Policy, b: Bar) {
    IsModelBar(b) && (b.origin == HistoryGap ==>
      policy == ConfirmedClosingContext && MinuteOfDay(b.time) == LAST_MINUTE)
  }

  function DayBars(warmup: seq<Bar>, policy: Policy, day: int): seq<Bar> {
    if warmup == [] then [] else
      var init, last := DayBars(warmup[..|warmup| - 1], policy, day), warmup[|warmup| - 1];
      if Counts(policy, last) && Day(last.time) == day then init + [last] else init
  }

  lemma {:induction false} DayBarsExact(warmup: seq<Bar>, policy: Policy, day: int)
    ensures forall b :: b in DayBars(warmup, policy, day) <==> b in warmup && Counts(policy, b) && Day(b.time) == day
  {
    if warmup != [] {
      DayBarsExact(warmup[..|warmup| - 1], policy, day);
      assert warmup == warmup[..|warmup| - 1] + [warmup[|warmup| - 1]];
    }
  }

  function Highest(bars: seq<Bar>): real
    requires bars != []
  {
    var last := bars[|bars| - 1];
    if |bars| == 1 then last.h else Max(Highest(bars[..|bars| - 1]), last.h)
  }

  function Lowest(bars: seq<Bar>): real
    requires bars != []
  {
    var last := bars[|bars| - 1];
    if |bars| == 1 then last.l else Min(Lowest(bars[..|bars| - 1]), last.l)
  }

  /** The first bar of the stable ordering by time. */
  function Earliest(bars: seq<Bar>): Bar
    requires bars != []
  {
    var last := bars[|bars| - 1];
    if |bars| == 1 then last else
      var r := Earliest(bars[..|bars| - 1]);
      if last.time < r.time then last else r
  }

  /** The last bar of the stable ordering by time. */
  function Latest(bars: seq<Bar>): Bar
    requires bars != []
  {
    var last := bars[|bars| - 1];
    if |bars| == 1 then last else
      var r := Latest(bars[..|bars| - 1]);
      if last.time >= r.time then last else r
  }

  /** The four summaries are attained by bars of the day and bound all of them. */
  lemma {:induction false} SummariesExact(bars: seq<Bar>)
    requires bars != []
    ensures Earliest(bars) in bars && Latest(bars) in bars
    ensures exists b :: b in bars && b.h == Highest(bars)
    ensures exists b :: b in bars && b.l == Lowest(bars)
    ensures forall b :: b in bars ==>
              Earliest(bars).time <= b.time <= Latest(bars).time && Lowest(bars) <= b.l && b.h <= Highest(bars)
  {
    var n := |bars| - 1;
    assert bars == bars[..n] + [bars[n]];
    assert bars[n] in bars;
    if n > 0 {
      SummariesExact(bars[..n]);
      var high :| high in bars[..n] && high.h == Highest(bars[..n]);
      var low :| low in bars[..n] && low.l == Lowest(bars[..n]);
      assert high in bars && low in bars;
    }
  }

  predicate Complete(day: int, bars: seq<Bar>) {
    && bars != []
    && |bars| >= (if OpeningMinute(day) == 540 then 80 else 92)
    && MinuteOfDay(Earliest(bars).time) <= (if OpeningMinute(day) == 540 then 550 else 430)
    && MinuteOfDay(Latest(bars).time) >= 1410
  }

  function AnchorOf(day: int, bars: seq<Bar>): Anchor
    requires bars != []
  {
    Anchor(day, Highest(bars), Lowest(bars), Latest(bars).close, Highest(bars) - Lowest(bars), |bars|)
  }

  ghost function CompleteDays(warmup: seq<Bar>, policy: Policy): set<int> {
    set b | b in warmup && Counts(policy, b) && Complete(Day(b.time), DayBars(warmup, policy, Day(b.time))) ::
        Day(b.time)
  }

  ghost function Greatest(s: set<int>): (r: Option<int>)
    ensures r.None? <==> forall x :: x !in s
    ensures r.Some? ==> r.value in s && forall x :: x in s ==> x <= r.value
  {
    if forall x :: x !in s then None else
      var x :| x in s;
      var rest := Greatest(s - {x});
      assert forall y :: y in s ==> y == x || y in s - {x};
      if rest.None? || rest.value < x then Some(x) else rest
  }

  ghost function AnchorAt(warmup: seq<Bar>, policy: Policy, day: Option<int>): Option<Anchor> {
    if day.None? || DayBars(warmup, policy, day.value) == [] then None
    else Some(AnchorOf(day.value, DayBars(warmup, policy, day.value)))
  }

  ghost function SecondGreatest(s: set<int>): Option<int> {
    match Greatest(s)
    case None => None
    case Some(x) => Greatest(s - {x})
  }

  /** The newest and the second newest complete day. */
  ghost function ContextOf(warmup: seq<Bar>, policy: Policy): Context {
    var days := CompleteDays(warmup, policy);
    Context(AnchorAt(warmup, policy, Greatest(days)), AnchorAt(warmup, policy, SecondGreatest(days)))
  }

  lemma CompleteDaysExact(warmup: seq<Bar>, policy: Policy, day: int)
    ensures day in CompleteDays(warmup, policy) <==> Complete(day, DayBars(warmup, policy, day))
  {
    var bars := DayBars(warmup, policy, day);
    DayBarsExact(warmup, policy, day);
    if bars != [] { assert bars[0] in bars; }
  }

  /** The context is drawn from complete days before the session: earlier days, distinct, positive, well formed. */
  lemma ContextSound(warmup: seq<Bar>, policy: Policy, day: int)
    requires forall b :: b in warmup ==> ValidBar(b) && Day(b.time) < day
    ensures var c := ContextOf(warmup, policy);
            && (c.previous.Some? ==>
                  && c.previous.value.date < day && c.previous.value.range >= 0.0
                  && 0.0 < c.previous.value.low <= c.previous.value.close <= c.previous.value.high)
            && (c.previous2.Some? ==>
                  && c.previous.Some? && c.previous2.value.date < c.previous.value.date
                  && 0.0 < c.previous2.value.low <= c.previous2.value.close <= c.previous2.value.high)
  {
    hide AnchorOf, DayBars, Complete;
    var days := CompleteDays(warmup, policy);
    var newest, second := Greatest(days), SecondGreatest(days);
    if newest.Some? {
      AnchorSound(warmup, policy, newest.value);
      if second.Some? { AnchorSound(warmup, policy, second.value); }
    }
  }

  lemma AnchorSound(warmup: seq<Bar>, policy: Policy, day: int)
    requires forall b :: b in warmup ==> ValidBar(b)
    requires day in CompleteDays(warmup, policy)
    ensures DayBars(warmup, policy, day) != []
    ensures var a := AnchorOf(day, DayBars(warmup, policy, day));
            && a.date == day && 0.0 < a.low <= a.close <= a.high && a.range >= 0.0
            && exists b :: b in warmup && Day(b.time) == day
  {
    var bars := DayBars(warmup, policy, day);
    CompleteDaysExact(warmup, policy, day);
    DayBarsExact(warmup, policy, day);
    SummariesExact(bars);
    assert ValidBar(Latest(bars));
  }

  // ---- The computation ----

  method GroupByDay(warmup: seq<Bar>, policy: Policy) returns (days: map<int, seq<Bar>>)
    ensures forall d :: d in days ==> days[d] == DayBars(warmup, policy, d) != []
    ensures forall d :: d !in days ==> DayBars(warmup, policy, d) == []
  {
    days := map[];
    for i := 0 to |warmup|
      invariant forall d :: d in days ==> days[d] == DayBars(warmup[..i], policy, d) != []
      invariant forall d :: d !in days ==> DayBars(warmup[..i], policy, d) == []
    {
      assert warmup[..i + 1][..i] == warmup[..i];
      var b := warmup[i];
      if Counts(policy, b) {
        var day := Day(b.time);
        days := days[day := (if day in days then days[day] else []) + [b]];
      }
    }
    assert warmup[..|warmup|] == warmup;
  }

  method Extremes(bars: seq<Bar>) returns (first: Bar, last: Bar, high: real, low: real)
    requires bars != []
    ensures first == Earliest(bars) && last == Latest(bars) && high == Highest(bars) && low == Lowest(bars)
  {
    hide Max, Min;
    first, last, high, low := bars[0], bars[0], bars[0].h, bars[0].l;
    for i := 1 to |bars|
      invariant first == Earliest(bars[..i]) && last == Latest(bars[..i])
      invariant high == Highest(bars[..i]) && low == Lowest(bars[..i])
    {
      assert bars[..i + 1][..i] == bars[..i];
      if bars[i].time < first.time { first := bars[i]; }
      if bars[i].time >= last.time { last := bars[i]; }
      high, low := Max(high, bars[i].h), Min(low, bars[i].l);
    }
    assert bars[..|bars|] == bars;
  }

  method Summarize(day: int, bars: seq<Bar>) returns (a: Option<Anchor>)
    requires bars != []
    ensures a == if Complete(day, bars) then Some(AnchorOf(day, bars)) else None
  {
    hide Earliest, Latest, Highest, Lowest, MinuteOfDay;
    var first, last, high, low := Extremes(bars);
    var long := OpeningMinute(day) == 540;
    if |bars| < (if long then 80 else 92) || MinuteOfDay(first.time) > (if long then 550 else 430)
       || MinuteOfDay(last.time) < 1410 {
      return None;
    }
    a := Some(Anchor(day, high, low, last.close, high - low, |bars|));
  }

  ghost predicate IsAnchor(a: Anchor, warmup: seq<Bar>, policy: Policy) {
    && a.date in CompleteDays(warmup, policy) && DayBars(warmup, policy, a.date) != []
    && a == AnchorOf(a.date, DayBars(warmup, policy, a.date))
  }

  /** The anchors of the complete days visited, oldest first. */
  ghost predicate AnchorsOf(anchors: seq<Anchor>, warmup: seq<Bar>, policy: Policy, visited: set<int>) {
    && (forall i, j :: 0 <= i < j < |anchors| ==> anchors[i].date < anchors[j].date)
    && (forall i :: 0 <= i < |anchors| ==> anchors[i].date in visited && IsAnchor(anchors[i], warmup, policy))
    && (forall d :: d in visited && d in CompleteDays(warmup, policy) ==> Has(anchors, d))
  }

  ghost predicate Has(anchors: seq<Anchor>, d: int) { exists i :: 0 <= i < |anchors| && anchors[i].date == d }

  method BuildContext(warmup: seq<Bar>, policy: Policy) returns (c: Context)
    ensures c == ContextOf(warmup, policy)
  {
    hide ContextOf, AnchorOf, Complete, CompleteDays, Has;
    var days := GroupByDay(warmup, policy);
    var anchors: seq<Anchor> := [];
    var rest := days.Keys;
    ghost var visited: set<int> := {};
    while exists d :: d in rest
      invariant visited + rest == days.Keys && visited !! rest
      invariant forall v, r :: v in visited && r in rest ==> v < r
      invariant AnchorsOf(anchors, warmup, policy, visited)
      decreases rest
    {
      var day := Minimum(rest);
      var a := Summarize(day, days[day]);
      ghost var before := anchors;
      NewAnchor(warmup, policy, day);
      if a.Some? { anchors := anchors + [a.value]; }
      rest := rest - {day};
      visited := visited + {day};
      AnchorsGrow(before, anchors, warmup, policy, visited, day);
    }
    forall d | d in CompleteDays(warmup, policy) ensures d in visited { NewAnchor(warmup, policy, d); }
    LastTwo(anchors, warmup, policy, visited);
    c := Context(if |anchors| >= 1 then Some(anchors[|anchors| - 1]) else None,
                 if |anchors| >= 2 then Some(anchors[|anchors| - 2]) else None);
  }

  lemma NewAnchor(warmup: seq<Bar>, policy: Policy, day: int)
    ensures var bars := DayBars(warmup, policy, day);
            && (day in CompleteDays(warmup, policy) <==> Complete(day, bars))
            && (Complete(day, bars) ==>
                 bars != [] && IsAnchor(AnchorOf(day, bars), warmup, policy) && AnchorOf(day, bars).date == day)
  {
    CompleteDaysExact(warmup, policy, day);
  }

  lemma AnchorsGrow(before: seq<Anchor>, after: seq<Anchor>, warmup: seq<Bar>, policy: Policy, visited: set<int>,
                    day: int)
    requires day in visited && AnchorsOf(before, warmup, policy, visited - {day})
    requires forall v :: v in visited ==> v <= day
    requires if day in CompleteDays(warmup, policy)
             then |after| == |before| + 1 && after[..|before|] == before
                  && IsAnchor(after[|before|], warmup, policy) && after[|before|].date == day
             else after == before
    ensures AnchorsOf(after, warmup, policy, visited)
  {
    hide IsAnchor, CompleteDays;
    assert forall i :: 0 <= i < |before| ==> after[i] == before[i];
    forall d | d in visited && d in CompleteDays(warmup, policy) ensures Has(after, d) {
      if d == day {
        assert after[|before|].date == d;
      } else {
        assert Has(before, d);
        var i :| 0 <= i < |before| && before[i].date == d;
        assert after[i].date == d;
      }
    }
  }

  lemma GreatestIs(s: set<int>, x: int)
    requires x in s && forall y :: y in s ==> y <= x
    ensures Greatest(s) == Some(x)
  {
  }

  /** The two greatest members of a set listed in increasing order. */
  lemma LastAreGreatest(dates: seq<int>, days: set<int>)
    requires forall i, j :: 0 <= i < j < |dates| ==> dates[i] < dates[j]
    requires forall d :: d in days <==> d in dates
    ensures var n := |dates|;
            && Greatest(days) == (if n >= 1 then Some(dates[n - 1]) else None)
            && SecondGreatest(days) == if n >= 2 then Some(dates[n - 2]) else None
  {
    hide Greatest;
    var n := |dates|;
    if n >= 1 {
      var newest := dates[n - 1];
      GreatestIs(days, newest);
      forall d | d in days - {newest} ensures d in dates[..n - 1] {}
      if n >= 2 { GreatestIs(days - {newest}, dates[n - 2]); }
    }
  }

  lemma NewestAnchors(anchors: seq<Anchor>, warmup: seq<Bar>, policy: Policy, visited: set<int>)
    requires AnchorsOf(anchors, warmup, policy, visited) && CompleteDays(warmup, policy) <= visited
    ensures var days, n := CompleteDays(warmup, policy), |anchors|;
            && Greatest(days) == (if n >= 1 then Some(anchors[n - 1].date) else None)
            && SecondGreatest(days) == if n >= 2 then Some(anchors[n - 2].date) else None
  {
    hide AnchorOf, CompleteDays, Greatest, SecondGreatest;
    var days, n := CompleteDays(warmup, policy), |anchors|;
    var dates := seq(n, i requires 0 <= i < n => anchors[i].date);
    forall d ensures d in days <==> d in dates {
      if d in days {
        assert Has(anchors, d);
        var i :| 0 <= i < n && anchors[i].date == d;
        assert dates[i] == d;
      }
      if d in dates {
        var i :| 0 <= i < n && dates[i] == d;
        assert IsAnchor(anchors[i], warmup, policy);
      }
    }
    LastAreGreatest(dates, days);
  }

  lemma LastTwo(anchors: seq<Anchor>, warmup: seq<Bar>, policy: Policy, visited: set<int>)
    requires AnchorsOf(anchors, warmup, policy, visited) && CompleteDays(warmup, policy) <= visited
    ensures ContextOf(warmup, policy) ==
            Context(if |anchors| >= 1 then Some(anchors[|anchors| - 1]) else None,
                    if |anchors| >= 2 then Some(anchors[|anchors| - 2]) else None)
  {
    hide CompleteDays, AnchorOf, Greatest, SecondGreatest;
    NewestAnchors(anchors, warmup, policy, visited);
    forall i | 0 <= i < |anchors| ensures IsAnchor(anchors[i], warmup, policy) {}
  }
}
