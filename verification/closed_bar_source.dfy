/** The publisher in its own form: mutable maps, loops over labels, appends one by one. */
module ClosedBarSource {
  import opened Results
  import opened Calendar
  import opened Increasing
  import opened ClosedBars
  import opened ClosedBarLoop
  import opened ClosedBarSafety

  lemma {:induction false} HarvestStops(cfg: Config, rows: map<int, Row>, observed: int, batch: seq<int>, h: Harvest,
                                        n: nat)
    requires n <= |batch| && HarvestAll(cfg, rows, observed, batch[..n], h).progress != Going
    ensures HarvestAll(cfg, rows, observed, batch, h) == HarvestAll(cfg, rows, observed, batch[..n], h)
  {
    if n < |batch| {
      var init := batch[..|batch| - 1];
      assert init[..n] == batch[..n];
      HarvestStops(cfg, rows, observed, init, h, n);
    } else {
      assert batch[..n] == batch;
    }
  }

  lemma {:induction false} GapAppendsStop(w: Writer, gaps: seq<Gap>, n: nat)
    requires n <= |gaps| && AppendGaps(w, gaps[..n]).fate != Writing
    ensures AppendGaps(w, gaps) == AppendGaps(w, gaps[..n])
  {
    if n < |gaps| {
      var init := gaps[..|gaps| - 1];
      assert init[..n] == gaps[..n];
      GapAppendsStop(w, init, n);
    } else {
      assert gaps[..n] == gaps;
    }
  }

  lemma {:induction false} RowAppendsStop(cfg: Config, w: Writer, proofs: seq<(Row, Proof)>, n: nat)
    requires n <= |proofs| && AppendRows(cfg, w, proofs[..n]).fate != Writing
    ensures AppendRows(cfg, w, proofs) == AppendRows(cfg, w, proofs[..n])
  {
    if n < |proofs| {
      var init := proofs[..|proofs| - 1];
      assert init[..n] == proofs[..n];
      RowAppendsStop(cfg, w, init, n);
    } else {
      assert proofs[..n] == proofs;
    }
  }

  lemma LeastIs(s: set<int>, m: int)
    requires m in s && forall x :: x in s ==> m <= x
    ensures Least(s) == m
  {
  }

  /** `newest` and `second` are the greatest and the second greatest member of `s`, as far as there are any. */
  ghost predicate AreNewest(s: set<int>, newest: Option<int>, second: Option<int>) {
    && (newest.None? ==> s == {})
    && (newest.Some? ==> newest.value in s && forall k :: k in s ==> k <= newest.value)
    && (newest.Some? && second.None? ==> s == {newest.value})
    && (second.Some? ==> newest.Some? && second.value in s && second.value < newest.value
                         && forall k :: k in s ==> k == newest.value || k <= second.value)
  }

  lemma NewestTwoAre(s: set<int>, newest: Option<int>, second: Option<int>)
    requires AreNewest(s, newest, second)
    ensures NewestTwo(s)
         == (if newest.Some? then {newest.value} else {}) + (if second.Some? then {second.value} else {})
  {
    if second.Some? {
      SecondNewest(s, newest.value, second.value);
    } else if newest.Some? {
      assert (set j | j in s && j > newest.value) == {};
    }
  }

  lemma SecondNewest(s: set<int>, newest: int, second: int)
    requires newest in s && second in s && second < newest
    requires forall k :: k in s ==> k == newest || k <= second
    ensures NewestTwo(s) == {newest, second}
  {
    forall k | k in s ensures k in NewestTwo(s) <==> k in {newest, second} {
      var greater := set j | j in s && j > k;
      if k == newest {
        assert greater == {};
      } else if k == second {
        assert greater == {newest};
      } else {
        assert greater == {newest, second} + (greater - {newest, second});
      }
    }
  }

  method TwoNewest(s: set<int>) returns (newest: Option<int>, second: Option<int>)
    ensures AreNewest(s, newest, second)
  {
    var rest := s;
    newest, second := None, None;
    ghost var seen: set<int> := {};
    while exists k :: k in rest
      invariant seen + rest == s && seen !! rest
      invariant AreNewest(seen, newest, second)
      decreases rest
    {
      var k :| k in rest;
      if newest.None? || k > newest.value {
        newest, second := Some(k), newest;
      } else if second.None? || k > second.value {
        second := Some(k);
      }
      rest := rest - {k};
      seen := seen + {k};
    }
    assert seen == s;
  }

  lemma Regroup(a: seq<int>, b: seq<int>, c: seq<int>)
    ensures a + (b + c) == a + b + c && a + [] == a
  {
  }

  method ParseResponse(body: seq<Raw>, lo: int, hi: int) returns (r: Result<map<int, Row>, Fault>)
    ensures r == ParseRows(body, lo, hi)
  {
    if |body| > MAX_RESPONSE { return Err(ResponseBudget); }
    var rows: map<int, Row> := map[];
    for i := 0 to |body|
      invariant ParsePrefix(body[..i], lo, hi) == Ok(rows)
    {
      assert body[..i + 1][..i] == body[..i];
      var checked := CheckBar(body[i]);
      if checked.Err? {
        ParseFails(body, lo, hi, i + 1);
        return Err(checked.error);
      }
      var row := checked.value;
      if lo <= row.time <= hi {
        if row.time in rows {
          ParseFails(body, lo, hi, i + 1);
          return Err(DuplicateBar);
        }
        rows := rows[row.time := row];
      }
    }
    assert body[..|body|] == body;
    r := Ok(rows);
  }

  lemma {:induction false} ParseFails(body: seq<Raw>, lo: int, hi: int, n: nat)
    requires n <= |body| && ParsePrefix(body[..n], lo, hi).Err?
    ensures ParsePrefix(body, lo, hi) == ParsePrefix(body[..n], lo, hi)
  {
    if n < |body| {
      assert body[..|body| - 1][..n] == body[..n];
      ParseFails(body[..|body| - 1], lo, hi, n);
    } else {
      assert body[..n] == body;
    }
  }

  class Source {
    const cfg: Config

    // Durable: the Redis stream, context-gaps.jsonl and the presence of FAILED.json.
    var stream: seq<Entry>
    var gapLines: seq<Gap>
    var failed: bool

    // Volatile.
    var running: bool
    var published: map<int, Row>
    var gaps: map<int, Gap>
    var absentSince: map<int, int>
    var candidates: map<int, Candidate>
    var count: nat

    ghost function OnDisk(): Disk reads this { Disk(stream, gapLines, failed) }

    function InMemory(): Memory reads this { Memory(published, gaps, absentSince, candidates, count) }

    ghost function Current(): State reads this { State(OnDisk(), if running then Up(InMemory()) else Down) }

    constructor (cfg: Config)
      ensures this.cfg == cfg && Current() == Fresh
    {
      this.cfg := cfg;
      stream, gapLines, failed, running := [], [], false, true;
      published, gaps, absentSince, candidates, count := map[], map[], map[], map[], 0;
    }

    method DueToday(day: int, now: int) returns (due: seq<int>)
      ensures due == UpTo(Slots(cfg, day), now - TF - GRACE)
    {
      var today := Slots(cfg, day);
      due := [];
      for i := 0 to |today|
        invariant due == UpTo(today[..i], now - TF - GRACE)
      {
        assert today[..i + 1][..i] == today[..i];
        if today[i] + TF + GRACE <= now { due := due + [today[i]]; }
      }
      assert today[..|today|] == today;
    }

    method DueLabels(now: int) returns (due: seq<int>)
      ensures due == Due(cfg, now)
    {
      var last := Day(now);
      due := DueThrough(last, now);
    }

    method DueThrough(last: int, now: int) returns (due: seq<int>)
      ensures due == DueDays(cfg, cfg.start, last, now)
    {
      hide UpTo, Slots;
      due := [];
      var day := cfg.start;
      ghost var rest := DueDays(cfg, day, last, now);
      ghost var all := rest;
      while day <= last
        invariant rest == DueDays(cfg, day, last, now) && due + rest == all
        decreases last - day
      {
        var today := DueToday(day, now);
        Regroup(due, today, DueDays(cfg, day + 1, last, now));
        due, rest, day := due + today, DueDays(cfg, day + 1, last, now), day + 1;
      }
      Regroup(due, [], []);
    }

    method RequestFrom(first: int) returns (lo: int)
      ensures lo == RequestStart(first, published.Keys)
    {
      var newest, second := TwoNewest(published.Keys);
      var oldest := if second.Some? then second else newest;
      lo := if oldest.Some? && oldest.value < first - 2 * TF then oldest.value else first - 2 * TF;
      NewestTwoAre(published.Keys, newest, second);
      LeastIs({first - 2 * TF} + NewestTwo(published.Keys), lo);
    }

    method ObserveRow(row: Row, observed: int) returns (r: Result<Option<Proof>, Fault>)
      modifies this`candidates
      ensures match Observe(cfg, old(candidates), row, observed)
              case Err(f) => r == Err(f) && candidates == old(candidates)
              case Ok((cs, proof)) => r == Ok(proof) && candidates == cs
    {
      var ts := row.time;
      var age := observed - ts - TF;
      if age < GRACE { return Err(NotClosed); }
      var origin := OriginOf(cfg, ts);
      if origin == Live && !(age <= MAX_AGE && Day(ts) == Day(observed)) { return Err(DeadlineMissed); }
      var candle := cfg.fingerprint(row);
      if ts !in candidates || candidates[ts].candle != candle {
        candidates := candidates[ts := Candidate(candle, observed)];
        return Ok(None);
      }
      var first := candidates[ts].first;
      if observed - first < CONFIRM { return Ok(None); }
      r := Ok(Some(Proof(VERSION, origin, first, observed, ts + TF, candle)));
    }

    method HarvestBatch(batch: seq<int>, rows: map<int, Row>, observed: int)
      returns (proofs: seq<(Row, Proof)>, absent: seq<Gap>, progress: Progress)
      modifies this`candidates, this`absentSince
      ensures HarvestAll(cfg, rows, observed, batch, Harvest(old(absentSince), old(candidates), [], [], Going))
           == Harvest(absentSince, candidates, proofs, absent, progress)
    {
      ghost var h0 := Harvest(absentSince, candidates, [], [], Going);
      proofs, absent, progress := [], [], Going;
      var i := 0;
      while i < |batch| && progress == Going
        invariant i <= |batch|
        invariant HarvestAll(cfg, rows, observed, batch[..i], h0)
            == Harvest(absentSince, candidates, proofs, absent, progress)
      {
        var ts := batch[i];
        assert batch[..i + 1][..i] == batch[..i];
        if ts !in rows {
          if ContextOnly(cfg, Day(ts)) {
            if observed >= ts + TF + MAX_AGE {
              if ts !in absentSince { absentSince := absentSince[ts := observed]; }
              assert absentSince == absentSince[ts := absentSince[ts]];
              var gap := ContextGap(cfg, ts, absentSince[ts], observed);
              match gap {
                case Err(f) => progress := Bad(f);
                case Ok(None) =>
                case Ok(Some(g)) => absent := absent + [g];
              }
            }
          } else if Day(ts) < cfg.live {
            progress := Bad(BootstrapIncomplete);
          } else {
            progress := Broken;
          }
        } else {
          absentSince := absentSince - {ts};
          var seen := ObserveRow(rows[ts], observed);
          match seen {
            case Err(f) => progress := Bad(f);
            case Ok(None) =>
            case Ok(Some(proof)) => proofs := proofs + [(rows[ts], proof)];
          }
        }
        i := i + 1;
      }
      assert batch[..|batch|] == batch;
      if i < |batch| { HarvestStops(cfg, rows, observed, batch, h0, i); }
    }

    method AppendGapLines(absent: seq<Gap>, budget: int) returns (fate: Fate, left: int)
      modifies this`gapLines, this`gaps
      ensures AppendGaps(Writer(old(OnDisk()), old(InMemory()), budget, Writing), absent)
           == Writer(OnDisk(), InMemory(), left, fate)
    {
      ghost var w0 := Writer(OnDisk(), InMemory(), budget, Writing);
      left, fate := budget, Writing;
      var i := 0;
      while i < |absent| && fate == Writing
        invariant i <= |absent|
        invariant AppendGaps(w0, absent[..i]) == Writer(OnDisk(), InMemory(), left, fate)
      {
        assert absent[..i + 1][..i] == absent[..i];
        var gap := absent[i];
        if |gaps| >= MAX_ROWS {
          fate := Stopped(GapBudget);
        } else if left == 0 {
          fate := Dead;
        } else {
          gapLines := gapLines + [gap];
          left := left - 1;
          gaps := gaps[gap.ts := gap];
        }
        i := i + 1;
      }
      assert absent[..|absent|] == absent;
      if i < |absent| { GapAppendsStop(w0, absent, i); }
    }

    method AppendEntry(row: Row, proof: Proof, budget: int) returns (fate: Fate, left: int)
      modifies this`stream, this`published, this`count, this`candidates
      ensures AppendRow(cfg, Writer(old(OnDisk()), old(InMemory()), budget, Writing), row, proof)
           == Writer(OnDisk(), InMemory(), left, fate)
    {
      var entry := EnvelopeOf(cfg, row, proof);
      left, fate := budget, Writing;
      if count >= MAX_ROWS { return Stopped(RowBudget), left; }
      if left == 0 { return Dead, left; }
      if stream != [] && entry.id <= stream[|stream| - 1].id { return Stopped(AppendRefused), left; }
      stream := stream + [entry];
      left := left - 1;
      published := published[row.time := row];
      count := count + 1;
      candidates := candidates - {row.time};
    }

    method AppendRowEntries(proofs: seq<(Row, Proof)>, budget: int) returns (fate: Fate)
      modifies this`stream, this`published, this`count, this`candidates
      ensures var w := AppendRows(cfg, Writer(old(OnDisk()), old(InMemory()), budget, Writing), proofs);
              fate == w.fate && OnDisk() == w.disk && InMemory() == w.mem
    {
      ghost var w0 := Writer(OnDisk(), InMemory(), budget, Writing);
      var left := budget;
      fate := Writing;
      var i := 0;
      while i < |proofs| && fate == Writing
        invariant i <= |proofs|
        invariant AppendRows(cfg, w0, proofs[..i]) == Writer(OnDisk(), InMemory(), left, fate)
      {
        assert proofs[..i + 1][..i] == proofs[..i];
        fate, left := AppendEntry(proofs[i].0, proofs[i].1, left);
        i := i + 1;
      }
      assert proofs[..|proofs|] == proofs;
      if i < |proofs| { RowAppendsStop(cfg, w0, proofs, i); }
    }

    method MarkFailed()
      modifies this
      ensures Current() == Fail(old(OnDisk()))
    {
      failed, running := true, false;
    }

    /** The consistency checks at the head of the loop and the request window. */
    method PlanRequest(now: int, steady: bool) returns (plan: Plan)
      ensures plan == PlanFetch(cfg, InMemory(), now, steady)
    {
      if !steady { return Refuse(ClockStepped); }
      if Day(now) - cfg.start > LIFETIME { return Refuse(LifetimeExhausted); }
      var due := DueLabels(now);
      var known := published.Keys + gaps.Keys;
      var pending := Without(due, known);
      if Unexpected(known, due) { return Refuse(UnexpectedLabel); }
      if !PrefixComplete(published.Keys, known, due) { return Refuse(PrefixMissing); }
      if pending == [] { return Rest; }
      if Overdue(cfg, pending, now) { return Refuse(ActiveGap); }
      var lo := RequestFrom(pending[0]);
      plan := Fetch(pending, lo, RequestEnd(pending[0], pending[|pending| - 1]));
    }

    method Fulfil(tick: Tick, pending: seq<int>, lo: int, hi: int)
      requires running
      modifies this
      ensures Current() == Attempt(cfg, old(OnDisk()), old(InMemory()), tick, pending, lo, hi)
    {
      if !tick.reachable { MarkFailed(); return; }
      var response := ParseResponse(tick.body, lo, hi);
      if response.Err? { MarkFailed(); return; }
      var rows := response.value;
      if !Unrevised(InMemory(), rows, lo, hi) || !StillAbsent(InMemory(), rows, lo, hi) { MarkFailed(); return; }
      var batch := UpTo(pending, hi);
      var proofs, absent, progress := HarvestBatch(batch, rows, tick.observed);
      if progress.Bad? { MarkFailed(); return; }
      // Do not append a later confirmed candle before an earlier one.
      if |proofs| + |absent| != |batch| { return; }
      var fate, left := AppendGapLines(absent, tick.budget);
      if fate == Writing {
        fate := AppendRowEntries(proofs, left);
      } else {
        RowAppendsStop(cfg, Writer(OnDisk(), InMemory(), left, fate), proofs, 0);
      }
      match fate {
        case Writing =>
        case Dead => if tick.raised { MarkFailed(); } else { running := false; }
        case Stopped(_) => MarkFailed();
      }
    }

    /** One turn of the main loop. */
    method LoopOnce(tick: Tick)
      modifies this
      ensures Current() == Iterate(cfg, old(Current()), tick)
    {
      if running {
        var plan := PlanRequest(tick.now, tick.steady);
        match plan {
          case Refuse(_) => MarkFailed();
          case Rest =>
          case Fetch(pending, lo, hi) => Fulfil(tick, pending, lo, hi);
        }
      }
    }

    method ReadStream() returns (r: Result<map<int, Row>, Fault>)
      ensures r == LoadStream(cfg, stream)
    {
      var rows: map<int, Row> := map[];
      for i := 0 to |stream|
        invariant LoadStream(cfg, stream[..i]) == Ok(rows)
      {
        assert stream[..i + 1][..i] == stream[..i];
        var row := StoredRow(cfg, stream[i]);
        if row.Err? {
          LoadStreamFails(cfg, stream, i + 1);
          return Err(row.error);
        }
        rows := rows[row.value.time := row.value];
      }
      assert stream[..|stream|] == stream;
      r := Ok(rows);
    }

    method ReadGaps(rows: map<int, Row>) returns (r: Option<map<int, Gap>>)
      ensures r == LoadGaps(cfg, rows.Keys, gapLines)
    {
      var found: map<int, Gap> := map[];
      for i := 0 to |gapLines|
        invariant LoadGaps(cfg, rows.Keys, gapLines[..i]) == Some(found)
      {
        assert gapLines[..i + 1][..i] == gapLines[..i];
        var gap := gapLines[i];
        if gap.ts in found || gap.ts in rows
           || ContextGap(cfg, gap.ts, gap.firstAbsent, gap.confirmedAbsent) != Ok(Some(gap)) {
          LoadGapsFails(cfg, rows.Keys, gapLines, i + 1);
          return None;
        }
        found := found[gap.ts := gap];
      }
      assert gapLines[..|gapLines|] == gapLines;
      r := Some(found);
    }

    /** Startup on an existing generation. */
    method Recover()
      modifies this
      ensures Current() == Resume(cfg, old(Current()))
    {
      hide LoadStream, LoadGaps;
      if running || failed || |stream| == 0 || |stream| >= MAX_ROWS { return; }
      var rows := ReadStream();
      if rows.Err? || |rows.value| != |stream| || GapBytes(gapLines) > MAX_AUDIT { return; }
      var found := ReadGaps(rows.value);
      if found.None? { return; }
      published, gaps, absentSince, candidates, count := rows.value, found.value, map[], map[], |stream|;
      running := true;
    }
  }

  lemma {:induction false} LoadStreamFails(cfg: Config, stream: seq<Entry>, n: nat)
    requires n <= |stream| && LoadStream(cfg, stream[..n]).Err?
    ensures LoadStream(cfg, stream) == LoadStream(cfg, stream[..n])
  {
    if n < |stream| {
      assert stream[..|stream| - 1][..n] == stream[..n];
      LoadStreamFails(cfg, stream[..|stream| - 1], n);
    } else {
      assert stream[..n] == stream;
    }
  }

  lemma {:induction false} LoadGapsFails(cfg: Config, published: set<int>, lines: seq<Gap>, n: nat)
    requires n <= |lines| && LoadGaps(cfg, published, lines[..n]).None?
    ensures LoadGaps(cfg, published, lines).None?
  {
    if n < |lines| {
      assert lines[..|lines| - 1][..n] == lines[..n];
      LoadGapsFails(cfg, published, lines[..|lines| - 1], n);
    } else {
      assert lines[..n] == lines;
    }
  }
}
