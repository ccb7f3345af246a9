/** What one iteration of the publisher comes to, told from the response and the labels of its batch. */
module ClosedBarOutcome {
  import opened Results
  import opened Calendar
  import opened Increasing
  import opened ClosedBars
  import opened ClosedBarLoop
  import opened ClosedBarSafety
  import opened ClosedBarRuns

  // ---- The response ----

  ghost predicate Has(body: seq<Raw>, ts: int) { exists j :: 0 <= j < |body| && body[j].Candle? && body[j].time == ts }

  predicate WellFormed(raw: Raw) {
    && raw.Candle? && raw.time > 0 && raw.time % 600 == 0
    && 0.0 < raw.low && raw.low <= raw.open <= raw.high && raw.low <= raw.close <= raw.high && raw.volume >= 0.0
  }

  /** At most 1500 candles, all well formed, no two of the window with the same label. */
  ghost predicate GoodResponse(body: seq<Raw>, lo: int, hi: int) {
    && |body| <= 1500
    && (forall j :: 0 <= j < |body| ==> WellFormed(body[j]))
    && (forall i, j :: 0 <= i < j < |body| && body[i].Candle? && body[j].Candle? && lo <= body[i].time <= hi
          ==> body[i].time != body[j].time)
  }

  function RowOf(raw: Raw): Row
    requires raw.Candle?
  {
    Row(raw.time, raw.open, raw.high, raw.low, raw.close, raw.volume)
  }

  /** The rows are those of the response, label by label. */
  ghost predicate RowsOf(body: seq<Raw>, lo: int, hi: int, rows: map<int, Row>) {
    && (forall ts :: ts in rows <==> lo <= ts <= hi && Has(body, ts))
    && (forall j :: 0 <= j < |body| && body[j].Candle? && lo <= body[j].time <= hi ==>
          body[j].time in rows && rows[body[j].time] == RowOf(body[j]))
  }

  ghost predicate GoodPrefix(body: seq<Raw>, lo: int, hi: int) {
    && (forall j :: 0 <= j < |body| ==> WellFormed(body[j]))
    && (forall i, j :: 0 <= i < j < |body| && body[i].Candle? && body[j].Candle? && lo <= body[i].time <= hi
          ==> body[i].time != body[j].time)
  }

  lemma CheckExact(raw: Raw)
    ensures CheckBar(raw).Ok? <==> WellFormed(raw)
    ensures CheckBar(raw).Ok? ==> CheckBar(raw).value == RowOf(raw)
  {
  }

  lemma GoodPrefixOneMore(init: seq<Raw>, raw: Raw, lo: int, hi: int)
    ensures GoodPrefix(init + [raw], lo, hi) <==>
      GoodPrefix(init, lo, hi) && WellFormed(raw) && !(lo <= raw.time <= hi && Has(init, raw.time))
  {
    var body := init + [raw];
    assert body[|init|] == raw;
    assert forall j {:trigger init[j]} {:trigger body[j]} :: 0 <= j < |init| ==> body[j] == init[j];
  }

  lemma HasOneMore(init: seq<Raw>, raw: Raw, ts: int)
    ensures Has(init + [raw], ts) <==> Has(init, ts) || (raw.Candle? && raw.time == ts)
  {
    var body := init + [raw];
    assert body[|init|] == raw;
    assert forall j {:trigger init[j]} :: 0 <= j < |init| ==> body[j] == init[j];
  }

  lemma RowsOneMore(init: seq<Raw>, raw: Raw, lo: int, hi: int, rows: map<int, Row>)
    requires RowsOf(init, lo, hi, rows) && raw.Candle? && !(lo <= raw.time <= hi && raw.time in rows)
    ensures RowsOf(init + [raw], lo, hi, if lo <= raw.time <= hi then rows[raw.time := RowOf(raw)] else rows)
  {
    var body, rows' := init + [raw], if lo <= raw.time <= hi then rows[raw.time := RowOf(raw)] else rows;
    forall ts ensures ts in rows' <==> lo <= ts <= hi && Has(body, ts) { HasOneMore(init, raw, ts); }
    forall j | 0 <= j < |body| && body[j].Candle? && lo <= body[j].time <= hi
      ensures body[j].time in rows' && rows'[body[j].time] == RowOf(body[j])
    {
      if j < |init| { assert body[j] == init[j]; }
    }
  }

  lemma {:induction false} PrefixExact(body: seq<Raw>, lo: int, hi: int)
    ensures ParsePrefix(body, lo, hi).Ok? <==> GoodPrefix(body, lo, hi)
    ensures ParsePrefix(body, lo, hi).Ok? ==> RowsOf(body, lo, hi, ParsePrefix(body, lo, hi).value)
  {
    hide GoodPrefix, RowsOf, WellFormed, CheckBar;
    if body == [] {
      NothingRead(lo, hi);
    } else {
      var init, raw := body[..|body| - 1], body[|body| - 1];
      assert body == init + [raw];
      PrefixExact(init, lo, hi);
      CheckExact(raw);
      GoodPrefixOneMore(init, raw, lo, hi);
      FormedIsCandle(raw);
      if ParsePrefix(init, lo, hi).Ok? && WellFormed(raw) {
        var rows := ParsePrefix(init, lo, hi).value;
        RowsHave(init, lo, hi, rows, raw.time);
        if !(lo <= raw.time <= hi && raw.time in rows) { RowsOneMore(init, raw, lo, hi, rows); }
      }
    }
  }

  lemma NothingRead(lo: int, hi: int)
    ensures GoodPrefix([], lo, hi) && RowsOf([], lo, hi, map[])
  {
  }

  lemma FormedIsCandle(raw: Raw)
    ensures WellFormed(raw) ==> raw.Candle?
  {
  }

  lemma RowsHave(body: seq<Raw>, lo: int, hi: int, rows: map<int, Row>, ts: int)
    requires RowsOf(body, lo, hi, rows)
    ensures ts in rows <==> lo <= ts <= hi && Has(body, ts)
  {
  }

  /** A response is read exactly if it is good, and then label by label. */
  lemma ResponseExact(body: seq<Raw>, lo: int, hi: int)
    ensures ParseRows(body, lo, hi).Ok? <==> GoodResponse(body, lo, hi)
    ensures ParseRows(body, lo, hi).Ok? ==> RowsOf(body, lo, hi, ParseRows(body, lo, hi).value)
  {
    PrefixExact(body, lo, hi);
    hide RowsOf, ParsePrefix;
  }

  /** The response agrees with what was published and with the recorded absences. */
  ghost predicate Agrees(mem: Memory, body: seq<Raw>, lo: int, hi: int) {
    && (forall ts :: ts in mem.published && lo <= ts <= hi ==>
          exists j :: 0 <= j < |body| && body[j].Candle? && RowOf(body[j]) == mem.published[ts] && body[j].time == ts)
    && (forall ts :: ts in mem.gaps && lo <= ts <= hi ==> !Has(body, ts))
  }

  lemma AgreesExact(mem: Memory, body: seq<Raw>, lo: int, hi: int, rows: map<int, Row>)
    requires RowsOf(body, lo, hi, rows)
    ensures Agrees(mem, body, lo, hi) <==> Unrevised(mem, rows, lo, hi) && StillAbsent(mem, rows, lo, hi)
  {
    if Unrevised(mem, rows, lo, hi) {
      forall ts | ts in mem.published && lo <= ts <= hi
        ensures exists j ::
          0 <= j < |body| && body[j].Candle? && RowOf(body[j]) == mem.published[ts] && body[j].time == ts
      {
        assert Has(body, ts);
        var j :| 0 <= j < |body| && body[j].Candle? && body[j].time == ts;
        assert rows[ts] == RowOf(body[j]);
      }
    }
    if Agrees(mem, body, lo, hi) {
      forall ts | ts in mem.published && lo <= ts <= hi ensures ts in rows && rows[ts] == mem.published[ts] {
        var j :| 0 <= j < |body| && body[j].Candle? && RowOf(body[j]) == mem.published[ts] && body[j].time == ts;
      }
    }
  }

  // ---- One label ----

  predicate Regular(cfg: Config, ts: int) { Weekday(Day(ts)) < 5 && Day(ts) !in cfg.excluded }

  /** A regular bar from activation on is not there yet: everything after it waits. */
  ghost predicate Blocks(cfg: Config, body: seq<Raw>, ts: int) {
    !Has(body, ts) && Regular(cfg, ts) && Day(ts) >= cfg.live
  }

  /** A hole in the bootstrap history, a bar shown too early, or a live bar shown past its deadline or its day. */
  ghost predicate Spoils(cfg: Config, body: seq<Raw>, observed: int, ts: int) {
    if !Has(body, ts) then Regular(cfg, ts) && Day(ts) < cfg.live
    else
      || observed < ts + 605
      || (Regular(cfg, ts) && Day(ts) >= cfg.live && (observed > ts + 690 || Day(observed) != Day(ts)))
  }

  /** The label is settled by this response: the same bar was first seen at least five seconds earlier, or its absence
      was, no earlier than ninety seconds after its close. */
  ghost predicate Settles(cfg: Config, mem: Memory, body: seq<Raw>, observed: int, ts: int) {
    if Has(body, ts) then
      exists j :: 0 <= j < |body| && body[j].Candle? && body[j].time == ts && ts in mem.candidates
                  && mem.candidates[ts].candle == cfg.fingerprint(RowOf(body[j]))
                      && observed >= mem.candidates[ts].first + 5
    else
      && !Regular(cfg, ts) && ts in mem.absentSince
      && mem.absentSince[ts] >= ts + 690 && observed >= ts + 690 && observed >= mem.absentSince[ts] + 5
  }

  /** Some label spoils the iteration before any blocks it. */
  ghost predicate Spoilt(cfg: Config, body: seq<Raw>, observed: int, batch: seq<int>) {
    exists k ::
      && 0 <= k < |batch| && Spoils(cfg, body, observed, batch[k])
      && forall i :: 0 <= i < k ==> !Blocks(cfg, body, batch[i])
  }

  ghost predicate Blocked(cfg: Config, body: seq<Raw>, batch: seq<int>) {
    exists k :: 0 <= k < |batch| && Blocks(cfg, body, batch[k])
  }

  // ---- The harvest ----

  predicate SameMemory(h: Harvest, candidates: map<int, Candidate>, absentSince: map<int, int>, ts: int) {
    && (ts in h.candidates <==> ts in candidates) && (ts in candidates ==> h.candidates[ts] == candidates[ts])
    && (ts in h.absentSince <==> ts in absentSince) && (ts in absentSince ==> h.absentSince[ts] == absentSince[ts])
  }

  lemma RegularExact(cfg: Config, ts: int)
    ensures Regular(cfg, ts) <==> !ContextOnly(cfg, Day(ts))
  {
  }

  /** What one label adds: a proof, an absence, or nothing. */
  ghost predicate Adds(cfg: Config, mem: Memory, body: seq<Raw>, observed: int, ts: int, h: Harvest, h': Harvest) {
    if h'.progress == Going && Settles(cfg, mem, body, observed, ts) && Has(body, ts) then
      && |h'.proofs| == |h.proofs| + 1 && h'.absent == h.absent && h'.proofs[..|h.proofs|] == h.proofs
      && h'.proofs[|h.proofs|].0.time == ts
    else if h'.progress == Going && Settles(cfg, mem, body, observed, ts) then
      && h'.proofs == h.proofs && |h'.absent| == |h.absent| + 1 && h'.absent[..|h.absent|] == h.absent
      && h'.absent[|h.absent|].ts == ts
    else h'.proofs == h.proofs && h'.absent == h.absent
  }

  /** One label that is in the window: whether it spoils, blocks, settles or waits. */
  lemma HarvestOneExact(cfg: Config, mem: Memory, body: seq<Raw>, lo: int, hi: int, rows: map<int, Row>, observed: int,
                        ts: int, h: Harvest)
    requires RowsOf(body, lo, hi, rows) && lo <= ts <= hi && IsSlot(cfg, ts) && h.progress == Going
    requires SameMemory(h, mem.candidates, mem.absentSince, ts)
    ensures var h' := HarvestOne(cfg, rows, observed, ts, h);
            && (h'.progress.Bad? <==> Spoils(cfg, body, observed, ts))
            && (h'.progress == Broken <==> Blocks(cfg, body, ts))
            && Adds(cfg, mem, body, observed, ts, h, h')
            && (forall x :: x != ts ==> SameMemory(h', h.candidates, h.absentSince, x))
  {
    RegularExact(cfg, ts);
    hide IsSlot, Day, Weekday, Regular;
    if Has(body, ts) {
      var j :| 0 <= j < |body| && body[j].Candle? && body[j].time == ts;
      assert rows[ts] == RowOf(body[j]);
      assert forall i :: 0 <= i < |body| && body[i].Candle? && body[i].time == ts ==> RowOf(body[i]) == rows[ts];
    }
  }

  lemma SpoiltOneMore(cfg: Config, body: seq<Raw>, observed: int, done: seq<int>, ts: int)
    ensures Spoilt(cfg, body, observed, done + [ts]) <==>
      Spoilt(cfg, body, observed, done) || (Spoils(cfg, body, observed, ts) && !Blocked(cfg, body, done))
    ensures Blocked(cfg, body, done + [ts]) <==> Blocked(cfg, body, done) || Blocks(cfg, body, ts)
  {
    hide Spoils, Blocks;
    var batch := done + [ts];
    assert batch[|done|] == ts;
    assert forall i {:trigger done[i]} :: 0 <= i < |done| ==> batch[i] == done[i];
    if Spoilt(cfg, body, observed, batch) {
      var k :| 0 <= k < |batch| && Spoils(cfg, body, observed, batch[k])
        && forall i :: 0 <= i < k ==> !Blocks(cfg, body, batch[i]);
      if k < |done| { assert Spoils(cfg, body, observed, done[k]); }
    }
    if Blocked(cfg, body, done) {
      var k :| 0 <= k < |done| && Blocks(cfg, body, done[k]);
      assert Blocks(cfg, body, batch[k]);
    }
  }

  /** A whole batch: the first label that spoils or blocks decides, and otherwise exactly the settled ones resolve. */
  ghost predicate Harvested(cfg: Config, mem: Memory, body: seq<Raw>, observed: int, batch: seq<int>, h: Harvest) {
    && (h.progress.Bad? <==> Spoilt(cfg, body, observed, batch))
    && (h.progress == Broken <==> !Spoilt(cfg, body, observed, batch) && Blocked(cfg, body, batch))
    && (forall x :: x !in batch ==> SameMemory(h, mem.candidates, mem.absentSince, x))
    && (h.progress == Going ==> HarvestedLabels(cfg, mem, body, observed, batch, h))
  }

  ghost predicate HarvestedLabels(cfg: Config, mem: Memory, body: seq<Raw>, observed: int, batch: seq<int>,
                                  h: Harvest) {
    && (forall x :: x in ProofLabels(h.proofs) <==> x in batch && Has(body, x) && Settles(cfg, mem, body, observed, x))
    && (forall x :: x in AbsentLabels(h.absent) <==>
         x in batch && !Has(body, x) && Settles(cfg, mem, body, observed, x))
  }

  lemma ProofOneMore(h: Harvest, h': Harvest, ts: int)
    requires |h'.proofs| == |h.proofs| + 1 && h'.proofs[..|h.proofs|] == h.proofs && h'.proofs[|h.proofs|].0.time == ts
    ensures ProofLabels(h'.proofs) == ProofLabels(h.proofs) + [ts]
  {
    forall i | 0 <= i < |h.proofs| ensures h'.proofs[i] == h.proofs[i] {
      assert h'.proofs[..|h.proofs|][i] == h.proofs[i];
    }
  }

  lemma AbsenceOneMore(h: Harvest, h': Harvest, ts: int)
    requires |h'.absent| == |h.absent| + 1 && h'.absent[..|h.absent|] == h.absent && h'.absent[|h.absent|].ts == ts
    ensures AbsentLabels(h'.absent) == AbsentLabels(h.absent) + [ts]
  {
    forall i | 0 <= i < |h.absent| ensures h'.absent[i] == h.absent[i] {
      assert h'.absent[..|h.absent|][i] == h.absent[i];
    }
  }

  lemma LabelsOneMore(cfg: Config, mem: Memory, body: seq<Raw>, observed: int, done: seq<int>, ts: int, h: Harvest,
                      h': Harvest)
    requires HarvestedLabels(cfg, mem, body, observed, done, h) && ts !in done && h'.progress == Going
    requires Adds(cfg, mem, body, observed, ts, h, h')
    ensures HarvestedLabels(cfg, mem, body, observed, done + [ts], h')
  {
    if Settles(cfg, mem, body, observed, ts) {
      if Has(body, ts) { ProofOneMore(h, h', ts); } else { AbsenceOneMore(h, h', ts); }
    }
    hide Settles, Has, ProofLabels, AbsentLabels;
    assert forall x :: x in done + [ts] <==> x in done || x == ts;
  }

  lemma HarvestedOneMore(cfg: Config, mem: Memory, body: seq<Raw>, lo: int, hi: int, rows: map<int, Row>,
                         observed: int, done: seq<int>, ts: int, h: Harvest)
    requires RowsOf(body, lo, hi, rows) && lo <= ts <= hi && IsSlot(cfg, ts) && ts !in done
    requires Harvested(cfg, mem, body, observed, done, h) && h.progress == Going
    ensures Harvested(cfg, mem, body, observed, done + [ts], HarvestOne(cfg, rows, observed, ts, h))
  {
    hide HarvestOne, Spoilt, Blocked, Spoils, Blocks, RowsOf, IsSlot, Adds, HarvestedLabels;
    var h' := HarvestOne(cfg, rows, observed, ts, h);
    HarvestOneExact(cfg, mem, body, lo, hi, rows, observed, ts, h);
    SpoiltOneMore(cfg, body, observed, done, ts);
    NotBoth(cfg, body, observed, ts);
    if h'.progress == Going { LabelsOneMore(cfg, mem, body, observed, done, ts, h, h'); }
    forall x | x !in done + [ts] ensures SameMemory(h', mem.candidates, mem.absentSince, x) {
      assert x !in done && x != ts by { assert x in done ==> x in done + [ts]; assert ts in done + [ts]; }
      assert SameMemory(h, mem.candidates, mem.absentSince, x) && SameMemory(h', h.candidates, h.absentSince, x);
    }
  }

  lemma NotBoth(cfg: Config, body: seq<Raw>, observed: int, ts: int)
    ensures !(Spoils(cfg, body, observed, ts) && Blocks(cfg, body, ts))
  {
  }

  lemma {:induction false} HarvestAllExact(cfg: Config, mem: Memory, body: seq<Raw>, lo: int, hi: int,
                                           rows: map<int, Row>, observed: int, batch: seq<int>)
    requires RowsOf(body, lo, hi, rows) && Strict(batch)
    requires forall ts :: ts in batch ==> lo <= ts <= hi && IsSlot(cfg, ts)
    ensures Harvested(cfg, mem, body, observed, batch,
                      HarvestAll(cfg, rows, observed, batch, Harvest(mem.absentSince, mem.candidates, [], [], Going)))
  {
    hide RowsOf, IsSlot, HarvestOne, Spoils, Blocks, Settles, Has;
    if batch == [] {
      NothingHarvested(cfg, mem, body, observed);
    } else {
      var done, ts := batch[..|batch| - 1], batch[|batch| - 1];
      LastIsGreatest(batch);
      assert batch == done + [ts] && ts in batch && forall x :: x in done ==> x in batch;
      HarvestAllExact(cfg, mem, body, lo, hi, rows, observed, done);
      var h := HarvestAll(cfg, rows, observed, done, Harvest(mem.absentSince, mem.candidates, [], [], Going));
      if h.progress == Going {
        hide Harvested;
        HarvestedOneMore(cfg, mem, body, lo, hi, rows, observed, done, ts, h);
      } else {
        SpoiltOneMore(cfg, body, observed, done, ts);
        hide Spoilt, Blocked;
      }
    }
  }

  lemma NothingHarvested(cfg: Config, mem: Memory, body: seq<Raw>, observed: int)
    ensures Harvested(cfg, mem, body, observed, [], Harvest(mem.absentSince, mem.candidates, [], [], Going))
  {
  }

  // ---- The iteration ----

  /** The iteration ends the generation: no response, a bad or contradicting one, or one that spoils the batch. */
  ghost predicate Faulty(cfg: Config, mem: Memory, tick: Tick, batch: seq<int>, lo: int, hi: int) {
    || !tick.reachable || !GoodResponse(tick.body, lo, hi) || !Agrees(mem, tick.body, lo, hi)
    || Spoilt(cfg, tick.body, tick.observed, batch)
  }

  ghost predicate AllSettled(cfg: Config, mem: Memory, tick: Tick, batch: seq<int>) {
    forall ts :: ts in batch ==> Settles(cfg, mem, tick.body, tick.observed, ts)
  }

  lemma {:induction false} GapsSurvive(w: Writer, gaps: seq<Gap>)
    requires w.budget < 0 && w.fate != Dead
    ensures AppendGaps(w, gaps).budget < 0 && AppendGaps(w, gaps).fate != Dead
  {
    if gaps != [] { GapsSurvive(w, gaps[..|gaps| - 1]); }
  }

  lemma {:induction false} RowsSurvive(cfg: Config, w: Writer, proofs: seq<(Row, Proof)>)
    requires w.budget < 0 && w.fate != Dead
    ensures AppendRows(cfg, w, proofs).budget < 0 && AppendRows(cfg, w, proofs).fate != Dead
  {
    if proofs != [] { RowsSurvive(cfg, w, proofs[..|proofs| - 1]); }
  }

  /** A process that survives writes the whole batch. */
  lemma CommitWhole(cfg: Config, d: Disk, mem: Memory, budget: int, pending: seq<int>, lo: int, hi: int, h: Harvest)
    requires Sound(cfg, d) && Covered(cfg, d) && Mirrors(cfg, d, mem) && budget < 0
    requires GoodPlan(cfg, StreamLabels(d), Known(d), pending, lo, hi)
    requires GoodHarvest(cfg, UpTo(pending, hi), h) && |h.proofs| + |h.absent| == |UpTo(pending, hi)|
    ensures var mem' := mem.(absentSince := h.absentSince, candidates := h.candidates);
            var w := AppendRows(cfg, AppendGaps(Writer(d, mem', budget, Writing), h.absent), h.proofs);
            w.fate == Writing && w.disk == d.(stream := d.stream + Entries(cfg, h.proofs), gaps := d.gaps + h.absent)
  {
    hide AppendGaps, AppendRows, Sound, Covered, InCalendar, Entries;
    var w := Writer(d, mem.(absentSince := h.absentSince, candidates := h.candidates), budget, Writing);
    CommitKeeps(cfg, d, mem, budget, pending, lo, hi, h);
    forall i | 0 <= i < |h.absent| ensures h.absent[i].ts !in Known(d) {
      assert h.absent[i].ts in UpTo(pending, hi);
    }
    GapsSurvive(w, h.absent);
    GapsKeep(cfg, w, h.absent);
    ResolvedQueue(cfg, d, pending, lo, hi, h);
    RowsSurvive(cfg, AppendGaps(w, h.absent), h.proofs);
    RowsKeep(cfg, AppendGaps(w, h.absent), h.proofs);
  }

  /** The new labels of a whole commit. */
  lemma CommitLabels(cfg: Config, d: Disk, h: Harvest)
    ensures var d' := d.(stream := d.stream + Entries(cfg, h.proofs), gaps := d.gaps + h.absent);
            && (forall x :: x in StreamLabels(d') <==> x in StreamLabels(d) || x in ProofLabels(h.proofs))
            && (forall x :: x in GapLabels(d') <==> x in GapLabels(d) || x in AbsentLabels(h.absent))
  {
    AppendedGapLabels(d, h.absent);
    AppendedRowLabels(cfg, d.(gaps := d.gaps + h.absent), h.proofs);
    hide Entries, ProofLabels, AbsentLabels;
    var d1 := d.(gaps := d.gaps + h.absent);
    assert d1.(stream := d1.stream + Entries(cfg, h.proofs))
        == d.(stream := d.stream + Entries(cfg, h.proofs), gaps := d.gaps + h.absent);
  }

  /** The labels of the batch that the response shows went to the stream, the others to the gap file. */
  ghost predicate Divided(body: seq<Raw>, batch: seq<int>, d: Disk, d': Disk) {
    && (forall x :: x in StreamLabels(d') <==> x in StreamLabels(d) || (x in batch && Has(body, x)))
    && (forall x :: x in GapLabels(d') <==> x in GapLabels(d) || (x in batch && !Has(body, x)))
  }

  lemma CommitDivides(cfg: Config, d: Disk, mem: Memory, tick: Tick, pending: seq<int>, lo: int, hi: int, h: Harvest)
    requires Sound(cfg, d) && Covered(cfg, d) && Mirrors(cfg, d, mem) && tick.budget < 0
    requires GoodPlan(cfg, StreamLabels(d), Known(d), pending, lo, hi)
    requires GoodHarvest(cfg, UpTo(pending, hi), h) && |h.proofs| + |h.absent| == |UpTo(pending, hi)|
    requires HarvestedLabels(cfg, mem, tick.body, tick.observed, UpTo(pending, hi), h)
    requires AllSettled(cfg, mem, tick, UpTo(pending, hi))
    ensures var mem' := mem.(absentSince := h.absentSince, candidates := h.candidates);
            var w := AppendRows(cfg, AppendGaps(Writer(d, mem', tick.budget, Writing), h.absent), h.proofs);
            w.fate == Writing && w.disk.failed == d.failed && Divided(tick.body, UpTo(pending, hi), d, w.disk)
  {
    hide Sound, Covered, Mirrors, GoodPlan, AppendRows, AppendGaps, GoodHarvest, Entries, Has, Settles, StreamLabels,
        GapLabels;
    hide ProofLabels, AbsentLabels;
    CommitWhole(cfg, d, mem, tick.budget, pending, lo, hi, h);
    CommitLabels(cfg, d, h);
  }

  lemma BlockedUnsettled(cfg: Config, mem: Memory, tick: Tick, batch: seq<int>)
    requires Blocked(cfg, tick.body, batch)
    ensures !AllSettled(cfg, mem, tick, batch)
  {
    var k :| 0 <= k < |batch| && Blocks(cfg, tick.body, batch[k]);
    assert batch[k] in batch && !Settles(cfg, mem, tick.body, tick.observed, batch[k]);
  }

  /** What the harvest of a good response comes to. */
  lemma BatchOutcome(cfg: Config, d: Disk, mem: Memory, tick: Tick, pending: seq<int>, lo: int, hi: int)
    requires Mirrors(cfg, d, mem) && GoodPlan(cfg, StreamLabels(d), Known(d), pending, lo, hi)
    requires ParseRows(tick.body, lo, hi).Ok?
    ensures var batch, rows := UpTo(pending, hi), ParseRows(tick.body, lo, hi).value;
            var h := HarvestAll(cfg, rows, tick.observed, batch,
                Harvest(mem.absentSince, mem.candidates, [], [], Going));
            && GoodHarvest(cfg, batch, h) && Harvested(cfg, mem, tick.body, tick.observed, batch, h)
            && (|h.proofs| + |h.absent| == |batch| ==> h.progress == Going)
            && (h.progress == Going ==> (|h.proofs| + |h.absent| == |batch| <==> AllSettled(cfg, mem, tick, batch)))
  {
    hide HarvestAll, MirrorsStream, OriginOf, ParseRows, Has, Spoilt, Blocked, GoodProofs, GoodAbsences, Day;
    var batch, rows := UpTo(pending, hi), ParseRows(tick.body, lo, hi).value;
    ResponseExact(tick.body, lo, hi);
    ParsedValid(tick.body, lo, hi);
    PlannedHarvest(cfg, d, mem, pending, lo, hi, rows, tick.observed);
    UpToStrict(pending, hi);
    HarvestAllExact(cfg, mem, tick.body, lo, hi, rows, tick.observed, batch);
    hide Settles, RowsOf, GoodPlan;
  }

  lemma ParsedValid(body: seq<Raw>, lo: int, hi: int)
    ensures ParseRows(body, lo, hi).Ok? ==> ValidRows(ParseRows(body, lo, hi).value)
  {
    ParsedRowsValid(body, lo, hi);
  }

  /** For every reachable state and whatever the response: the generation is marked failed exactly by a faulty
      response; a batch that is blocked or not yet settled changes neither file and leaves the process up; a settled
      one is written, present labels to the stream and missing ones to the gap file, by a process that survives. */
  lemma IterationExactly(cfg: Config, s: State, tick: Tick)
    requires Inv(cfg, s) && s.proc.Up? && PlanFetch(cfg, s.proc.mem, tick.now, tick.steady).Fetch?
    ensures var mem := s.proc.mem;
            var plan := PlanFetch(cfg, mem, tick.now, tick.steady);
            var batch, s' := UpTo(plan.pending, plan.hi), Iterate(cfg, s, tick);
            var faulty := Faulty(cfg, mem, tick, batch, plan.lo, plan.hi);
            && (faulty ==> s' == State(s.disk.(failed := true), Down))
            && (!faulty && !AllSettled(cfg, mem, tick, batch) ==> s'.proc.Up? && s'.disk == s.disk)
            && (!faulty && Blocked(cfg, tick.body, batch) ==> s'.proc.Up? && s'.disk == s.disk)
            && (!faulty && AllSettled(cfg, mem, tick, batch) && tick.budget < 0 ==>
                  s'.proc.Up? && !s'.disk.failed && Divided(tick.body, batch, s.disk, s'.disk))
            && (tick.budget < 0 || !tick.raised ==> (s'.disk.failed <==> faulty))
  {
    hide PlanFetch, Sound, Covered, Mirrors, GoodPlan, ParseRows, HarvestAll, AppendRows, AppendGaps, GoodHarvest,
        Divided;
    hide Spoilt, Blocked, GoodResponse, Agrees, Unrevised, StillAbsent, RowsOf, HarvestedLabels, AllSettled, SameMemory;
    var d, mem := s.disk, s.proc.mem;
    var plan := PlanFetch(cfg, mem, tick.now, tick.steady);
    var batch := UpTo(plan.pending, plan.hi);
    PlanIsGood(cfg, d, mem, tick.now, tick.steady);
    ResponseExact(tick.body, plan.lo, plan.hi);
    if Blocked(cfg, tick.body, batch) { BlockedUnsettled(cfg, mem, tick, batch); }
    if tick.reachable && ParseRows(tick.body, plan.lo, plan.hi).Ok? {
      var rows := ParseRows(tick.body, plan.lo, plan.hi).value;
      AgreesExact(mem, tick.body, plan.lo, plan.hi, rows);
      BatchOutcome(cfg, d, mem, tick, plan.pending, plan.lo, plan.hi);
      var h := HarvestAll(cfg, rows, tick.observed, batch, Harvest(mem.absentSince, mem.candidates, [], [], Going));
      if h.progress == Going && |h.proofs| + |h.absent| == |batch| {
        CommitKeeps(cfg, d, mem, tick.budget, plan.pending, plan.lo, plan.hi, h);
        if tick.budget < 0 { CommitDivides(cfg, d, mem, tick, plan.pending, plan.lo, plan.hi, h); }
      }
    }
  }

  // ---- What is remembered for the next iteration ----

  /** A present bar is remembered since it was first shown with this content, a missing one on a context-only day since
      it was first found missing ninety seconds after its close. */
  ghost predicate Remembered(cfg: Config, mem: Memory, body: seq<Raw>, observed: int, ts: int,
                             candidates: map<int, Candidate>, absentSince: map<int, int>) {
    if Has(body, ts) then
      && ts !in absentSince
      && exists j :: 0 <= j < |body| && body[j].Candle? && body[j].time == ts && ts in candidates
           && candidates[ts].candle == cfg.fingerprint(RowOf(body[j]))
           && candidates[ts].first == (if ts in mem.candidates && mem.candidates[ts].candle == candidates[ts].candle
                                       then mem.candidates[ts].first else observed)
    else if observed >= ts + 690 then
      ts in absentSince && absentSince[ts] == if ts in mem.absentSince then mem.absentSince[ts] else observed
    else
      (ts in absentSince <==> ts in mem.absentSince) && (ts in absentSince ==> absentSince[ts] == mem.absentSince[ts])
  }

  lemma HarvestOneRemembers(cfg: Config, mem: Memory, body: seq<Raw>, lo: int, hi: int, rows: map<int, Row>,
                            observed: int, ts: int, h: Harvest)
    requires RowsOf(body, lo, hi, rows) && lo <= ts <= hi && IsSlot(cfg, ts) && h.progress == Going
    requires SameMemory(h, mem.candidates, mem.absentSince, ts)
    ensures var h' := HarvestOne(cfg, rows, observed, ts, h);
            h'.progress == Going ==> Remembered(cfg, mem, body, observed, ts, h'.candidates, h'.absentSince)
  {
    RegularExact(cfg, ts);
    hide IsSlot, Day, Weekday, Regular;
    if Has(body, ts) {
      var j :| 0 <= j < |body| && body[j].Candle? && body[j].time == ts;
      assert rows[ts] == RowOf(body[j]);
    }
  }

  lemma {:induction false} HarvestAllRemembers(cfg: Config, mem: Memory, body: seq<Raw>, lo: int, hi: int,
                                               rows: map<int, Row>, observed: int, batch: seq<int>)
    requires RowsOf(body, lo, hi, rows) && Strict(batch)
    requires forall ts :: ts in batch ==> lo <= ts <= hi && IsSlot(cfg, ts)
    ensures var h := HarvestAll(cfg, rows, observed, batch, Harvest(mem.absentSince, mem.candidates, [], [], Going));
            h.progress == Going ==>
              forall ts :: ts in batch ==> Remembered(cfg, mem, body, observed, ts, h.candidates, h.absentSince)
  {
    hide RowsOf, IsSlot, HarvestOne, Has, Harvested;
    if batch != [] {
      var done, ts := batch[..|batch| - 1], batch[|batch| - 1];
      LastIsGreatest(batch);
      assert batch == done + [ts] && ts in batch && forall x :: x in done ==> x in batch;
      HarvestAllRemembers(cfg, mem, body, lo, hi, rows, observed, done);
      HarvestAllExact(cfg, mem, body, lo, hi, rows, observed, done);
      var h := HarvestAll(cfg, rows, observed, done, Harvest(mem.absentSince, mem.candidates, [], [], Going));
      if h.progress == Going {
        HarvestedMemory(cfg, mem, body, observed, done, h, ts);
        HarvestOneExact(cfg, mem, body, lo, hi, rows, observed, ts, h);
        HarvestOneRemembers(cfg, mem, body, lo, hi, rows, observed, ts, h);
        var h' := HarvestOne(cfg, rows, observed, ts, h);
        forall x | x in done && h'.progress == Going
          ensures Remembered(cfg, mem, body, observed, x, h'.candidates, h'.absentSince)
        {
          assert SameMemory(h', h.candidates, h.absentSince, x);
          RememberedSame(cfg, mem, body, observed, x, h, h');
        }
      }
    }
  }

  lemma HarvestedMemory(cfg: Config, mem: Memory, body: seq<Raw>, observed: int, done: seq<int>, h: Harvest, ts: int)
    requires Harvested(cfg, mem, body, observed, done, h) && ts !in done
    ensures SameMemory(h, mem.candidates, mem.absentSince, ts)
  {
  }

  lemma RememberedSame(cfg: Config, mem: Memory, body: seq<Raw>, observed: int, ts: int, h: Harvest, h': Harvest)
    requires Remembered(cfg, mem, body, observed, ts, h.candidates, h.absentSince)
    requires SameMemory(h', h.candidates, h.absentSince, ts)
    ensures Remembered(cfg, mem, body, observed, ts, h'.candidates, h'.absentSince)
  {
    if Has(body, ts) {
      var j :| 0 <= j < |body| && body[j].Candle? && body[j].time == ts && ts in h.candidates
               && h.candidates[ts].candle == cfg.fingerprint(RowOf(body[j]))
               && h.candidates[ts].first == (if ts in mem.candidates
                   && mem.candidates[ts].candle == h.candidates[ts].candle
                                             then mem.candidates[ts].first else observed);
      assert h'.candidates[ts] == h.candidates[ts];
    }
  }

  /** After an iteration that neither fails nor is blocked nor commits, every label of the batch is remembered. */
  lemma WaitingRemembers(cfg: Config, s: State, tick: Tick)
    requires Inv(cfg, s) && s.proc.Up? && PlanFetch(cfg, s.proc.mem, tick.now, tick.steady).Fetch?
    requires var plan := PlanFetch(cfg, s.proc.mem, tick.now, tick.steady);
             var batch := UpTo(plan.pending, plan.hi);
             !Faulty(cfg, s.proc.mem, tick, batch, plan.lo, plan.hi) && !Blocked(cfg, tick.body, batch)
             && !AllSettled(cfg, s.proc.mem, tick, batch)
    ensures var plan := PlanFetch(cfg, s.proc.mem, tick.now, tick.steady);
            var s' := Iterate(cfg, s, tick);
            s'.proc.Up? && forall ts :: ts in UpTo(plan.pending, plan.hi) ==>
              Remembered(cfg, s.proc.mem, tick.body, tick.observed, ts, s'.proc.mem.candidates, s'.proc.mem.absentSince)
  {
    hide PlanFetch, Sound, Covered, Mirrors, ParseRows, HarvestAll, AppendRows, AppendGaps, GoodHarvest, Remembered;
    hide Spoilt, Blocked, GoodResponse, Agrees, Unrevised, StillAbsent, RowsOf, HarvestedLabels, AllSettled, SameMemory;
    var d, mem := s.disk, s.proc.mem;
    var plan := PlanFetch(cfg, mem, tick.now, tick.steady);
    var batch := UpTo(plan.pending, plan.hi);
    PlanIsGood(cfg, d, mem, tick.now, tick.steady);
    ResponseExact(tick.body, plan.lo, plan.hi);
    var rows := ParseRows(tick.body, plan.lo, plan.hi).value;
    AgreesExact(mem, tick.body, plan.lo, plan.hi, rows);
    BatchOutcome(cfg, d, mem, tick, plan.pending, plan.lo, plan.hi);
    BatchSlots(cfg, StreamLabels(d), Known(d), plan.pending, plan.lo, plan.hi);
    HarvestAllRemembers(cfg, mem, tick.body, plan.lo, plan.hi, rows, tick.observed, batch);
  }

  lemma BatchSlots(cfg: Config, published: set<int>, known: set<int>, pending: seq<int>, lo: int, hi: int)
    requires GoodPlan(cfg, published, known, pending, lo, hi)
    ensures Strict(UpTo(pending, hi)) && forall ts :: ts in UpTo(pending, hi) ==> lo <= ts <= hi && IsSlot(cfg, ts)
  {
    UpToStrict(pending, hi);
  }

  // ---- When a fetch is made at all ----

  /** A slot that closed at least five seconds ago and is neither published nor recorded absent. */
  ghost predicate Awaited(cfg: Config, d: Disk, now: int, ts: int) {
    cfg.start <= Day(ts) && IsSlot(cfg, ts) && ts + 605 <= now && ts !in Known(d)
  }

  lemma AwaitedExact(cfg: Config, d: Disk, mem: Memory, now: int)
    requires Mirrors(cfg, d, mem)
    ensures forall ts :: ts in Without(Due(cfg, now), mem.published.Keys + mem.gaps.Keys) <==> Awaited(cfg, d, now, ts)
  {
    hide IsSlot, Day, Due, Known, Mirrors;
    DueExact(cfg, now);
    MirrorKeys(cfg, d, mem);
  }

  lemma OverdueExact(cfg: Config, pending: seq<int>, now: int)
    ensures Overdue(cfg, pending, now) <==>
      exists ts :: ts in pending && Regular(cfg, ts) && Day(ts) >= cfg.live && now > ts + 690
  {
    hide Day, Regular, ContextOnly;
    forall ts ensures Regular(cfg, ts) <==> !ContextOnly(cfg, Day(ts)) { RegularExact(cfg, ts); }
    if Overdue(cfg, pending, now) {
      var ts :| ts in pending && ExpectedLive(cfg, ts) && now - ts - TF > MAX_AGE;
      assert ts in pending && Regular(cfg, ts) && Day(ts) >= cfg.live && now > ts + 690;
    }
    if exists ts :: ts in pending && Regular(cfg, ts) && Day(ts) >= cfg.live && now > ts + 690 {
      var ts :| ts in pending && Regular(cfg, ts) && Day(ts) >= cfg.live && now > ts + 690;
      assert ts in pending && ExpectedLive(cfg, ts) && now - ts - TF > MAX_AGE;
    }
  }

  /** In every reachable state, at a steady clock that shows no known label in the future and within the lifetime: the
      loop refuses exactly if some awaited live label is unknown ninety seconds after its close, rests exactly if no
      label is awaited, and otherwise fetches exactly the awaited labels. */
  lemma PlanExactly(cfg: Config, s: State, now: int)
    requires Inv(cfg, s) && s.proc.Up? && Day(now) - cfg.start <= 40
    requires forall ts :: ts in Known(s.disk) ==> ts + 605 <= now
    ensures var plan := PlanFetch(cfg, s.proc.mem, now, true);
            && (plan == Refuse(ActiveGap) <==>
                  exists ts :: Awaited(cfg, s.disk, now, ts) && Regular(cfg, ts) && Day(ts) >= cfg.live
                      && now > ts + 690)
            && (plan == Rest <==> forall ts :: !Awaited(cfg, s.disk, now, ts))
            && (plan.Refuse? ==> plan == Refuse(ActiveGap))
            && (plan.Fetch? ==> forall ts :: ts in plan.pending <==> Awaited(cfg, s.disk, now, ts))
  {
    hide IsSlot, Day, Mirrors, Sound, Covered, Due, Regular, Awaited, Unexpected, PrefixComplete, Overdue, Known;
    hide RequestStart, RequestEnd;
    var d, mem := s.disk, s.proc.mem;
    PrefixNeverMissing(cfg, d, mem, now, true);
    UnexpectedExactly(cfg, d, mem, now);
    AwaitedExact(cfg, d, mem, now);
    var pending := Without(Due(cfg, now), mem.published.Keys + mem.gaps.Keys);
    OverdueExact(cfg, pending, now);
    assert pending != [] ==> pending[0] in pending;
  }

  /** The other refusals, in the order in which they are looked for: a stepped clock, the fortieth day past, a known
      label that is not due yet. */
  lemma RefusalsExact(cfg: Config, s: State, now: int, steady: bool)
    requires Inv(cfg, s) && s.proc.Up?
    ensures var plan, past := PlanFetch(cfg, s.proc.mem, now, steady), Day(now) - cfg.start > 40;
            var early := exists ts :: ts in Known(s.disk) && ts + 605 > now;
            && (plan == Refuse(ClockStepped) <==> !steady)
            && (plan == Refuse(LifetimeExhausted) <==> steady && past)
            && (plan == Refuse(UnexpectedLabel) <==> steady && !past && early)
            && plan != Refuse(PrefixMissing)
  {
    hide IsSlot, Day, Mirrors, Sound, Covered, Due, Unexpected, PrefixComplete, Overdue, Known;
    hide RequestStart, RequestEnd;
    PrefixNeverMissing(cfg, s.disk, s.proc.mem, now, steady);
    if Day(now) - cfg.start <= 40 { UnexpectedExactly(cfg, s.disk, s.proc.mem, now); }
  }

  // ---- The window of a request ----

  /** One of the two newest published labels: no two others are newer. */
  ghost predicate AmongNewest(published: set<int>, p: int) {
    p in published && forall a, b :: a in published && b in published && p < a && p < b ==> a == b
  }

  lemma NoTwo(s: set<int>)
    ensures |s| < 2 <==> forall a, b :: a in s && b in s ==> a == b
  {
    if exists a :: a in s {
      var a :| a in s;
      var rest := s - {a};
      assert s == {a} + rest;
      if exists b :: b in rest {
        var b :| b in rest;
        assert rest == {b} + (rest - {b}) && b in s && a != b;
      } else {
        assert rest <= {};
      }
    } else {
      assert s <= {};
    }
  }

  lemma NewestTwoExact(published: set<int>, p: int)
    ensures p in NewestTwo(published) <==> AmongNewest(published, p)
  {
    var greater := set j | j in published && j > p;
    NoTwo(greater);
    assert forall x :: x in greater <==> x in published && p < x;
  }

  /** The window of a request reaches back exactly to the least of two slots before the first pending label and the
      two newest published ones, and forward to the last pending label or 23:40 of the first one's day. */
  lemma WindowExact(cfg: Config, mem: Memory, now: int, steady: bool)
    requires PlanFetch(cfg, mem, now, steady).Fetch?
    ensures var Fetch(pending, lo, hi) := PlanFetch(cfg, mem, now, steady);
            && pending != []
            && var first, last := pending[0], pending[|pending| - 1];
            var published, end := mem.published.Keys, Day(first) * 86400 + 23 * 3600 + 40 * 60 - 10800;
            && lo <= first - 1200 && (forall p :: AmongNewest(published, p) ==> lo <= p)
            && (lo == first - 1200 || AmongNewest(published, lo))
            && hi <= last && hi <= end && (hi == last || hi == end)
  {
    hide Due, Day, NewestTwo, AmongNewest, PrefixComplete, Overdue, Unexpected;
    forall p ensures p in NewestTwo(mem.published.Keys) <==> AmongNewest(mem.published.Keys, p) {
      NewestTwoExact(mem.published.Keys, p);
    }
  }

  lemma MirrorKeys(cfg: Config, d: Disk, mem: Memory)
    requires Mirrors(cfg, d, mem)
    ensures mem.published.Keys + mem.gaps.Keys == Known(d)
  {
  }
}
