/** Every published row and every recorded absence is backed by two actual responses of the run. */
module ClosedBarEvidence {
  import opened Results
  import opened Calendar
  import opened Increasing
  import opened ClosedBars
  import opened ClosedBarLoop
  import opened ClosedBarSafety
  import opened ClosedBarRuns

  /** The response shows a valid candle with this label and fingerprint. */
  ghost predicate Shows(cfg: Config, body: seq<Raw>, ts: int, candle: int) {
    exists j :: 0 <= j < |body| && CheckBar(body[j]).Ok? && body[j].time == ts
        && cfg.fingerprint(CheckBar(body[j]).value) == candle
  }

  ghost predicate Lacks(body: seq<Raw>, ts: int) {
    forall j :: 0 <= j < |body| ==> CheckBar(body[j]).Ok? && body[j].time != ts
  }

  ghost predicate SeenAt(cfg: Config, events: seq<Event>, ts: int, candle: int, observed: int) {
    exists i :: 0 <= i < |events| && events[i].Loop? && events[i].tick.observed == observed
        && Shows(cfg, events[i].tick.body, ts, candle)
  }

  ghost predicate AbsentAt(events: seq<Event>, ts: int, observed: int) {
    exists i :: 0 <= i < |events| && events[i].Loop? && events[i].tick.observed == observed
        && Lacks(events[i].tick.body, ts)
  }

  ghost predicate TwiceSeen(cfg: Config, events: seq<Event>, ts: int, proof: Proof) {
    SeenAt(cfg, events, ts, proof.candle, proof.first) && SeenAt(cfg, events, ts, proof.candle, proof.confirmed)
  }

  ghost predicate TwiceAbsent(events: seq<Event>, gap: Gap) {
    AbsentAt(events, gap.ts, gap.firstAbsent) && AbsentAt(events, gap.ts, gap.confirmedAbsent)
  }

  ghost predicate Remembered(cfg: Config, events: seq<Event>, candidates: map<int, Candidate>,
                             absentSince: map<int, int>)
  {
    && (forall ts :: ts in candidates ==> SeenAt(cfg, events, ts, candidates[ts].candle, candidates[ts].first))
    && (forall ts :: ts in absentSince ==> AbsentAt(events, ts, absentSince[ts]))
  }

  ghost predicate DiskBacked(cfg: Config, events: seq<Event>, d: Disk) {
    && (forall i :: 0 <= i < |d.stream| ==> TwiceSeen(cfg, events, d.stream[i].env.time, d.stream[i].env.proof))
    && (forall i :: 0 <= i < |d.gaps| ==> TwiceAbsent(events, d.gaps[i]))
  }

  ghost predicate Backed(cfg: Config, events: seq<Event>, s: State) {
    && DiskBacked(cfg, events, s.disk)
    && (s.proc.Up? ==> Remembered(cfg, events, s.proc.mem.candidates, s.proc.mem.absentSince))
  }

  lemma MoreEvents(cfg: Config, events: seq<Event>, e: Event, s: State)
    requires Backed(cfg, events, s)
    ensures Backed(cfg, events + [e], s)
  {
    var more := events + [e];
    forall ts, candle, t | SeenAt(cfg, events, ts, candle, t) ensures SeenAt(cfg, more, ts, candle, t) {
      var i :| 0 <= i < |events| && events[i].Loop? && events[i].tick.observed == t
          && Shows(cfg, events[i].tick.body, ts, candle);
      assert more[i] == events[i];
    }
    forall ts, t | AbsentAt(events, ts, t) ensures AbsentAt(more, ts, t) {
      var i :| 0 <= i < |events| && events[i].Loop? && events[i].tick.observed == t && Lacks(events[i].tick.body, ts);
      assert more[i] == events[i];
    }
  }

  // ---- One response ----

  lemma {:induction false} ParsedRowsShown(cfg: Config, body: seq<Raw>, lo: int, hi: int, ts: int)
    requires ParsePrefix(body, lo, hi).Ok? && lo <= ts <= hi
    ensures var rows := ParsePrefix(body, lo, hi).value;
            && (ts in rows ==> Shows(cfg, body, ts, cfg.fingerprint(rows[ts])))
            && (ts !in rows ==> Lacks(body, ts))
  {
    if body != [] {
      var n := |body| - 1;
      ParsedRowsShown(cfg, body[..n], lo, hi, ts);
      var before := ParsePrefix(body[..n], lo, hi).value;
      if ts in before {
        var j :| 0 <= j < n && CheckBar(body[..n][j]).Ok? && body[..n][j].time == ts
                 && cfg.fingerprint(CheckBar(body[..n][j]).value) == cfg.fingerprint(before[ts]);
        assert body[j] == body[..n][j];
      } else {
        assert forall j :: 0 <= j < n ==> body[j] == body[..n][j];
      }
    }
  }

  ghost predicate HarvestBacked(cfg: Config, events: seq<Event>, h: Harvest) {
    && Remembered(cfg, events, h.candidates, h.absentSince)
    && (forall i :: 0 <= i < |h.proofs| ==> TwiceSeen(cfg, events, h.proofs[i].0.time, h.proofs[i].1))
    && (forall i :: 0 <= i < |h.absent| ==> TwiceAbsent(events, h.absent[i]))
  }

  /** The last event answered with `rows` for every label of the window. */
  ghost predicate Answered(cfg: Config, events: seq<Event>, rows: map<int, Row>, observed: int, ts: int) {
    && (ts in rows ==> rows[ts].time == ts && SeenAt(cfg, events, ts, cfg.fingerprint(rows[ts]), observed))
    && (ts !in rows ==> AbsentAt(events, ts, observed))
  }

  lemma HarvestOneBacked(cfg: Config, events: seq<Event>, rows: map<int, Row>, observed: int, ts: int, h: Harvest)
    requires HarvestBacked(cfg, events, h) && Answered(cfg, events, rows, observed, ts)
    ensures HarvestBacked(cfg, events, HarvestOne(cfg, rows, observed, ts, h))
  {
  }

  lemma {:induction false} HarvestAllBacked(cfg: Config, events: seq<Event>, rows: map<int, Row>, observed: int,
                                            batch: seq<int>, h: Harvest)
    requires HarvestBacked(cfg, events, h)
    requires forall ts :: ts in batch ==> Answered(cfg, events, rows, observed, ts)
    ensures HarvestBacked(cfg, events, HarvestAll(cfg, rows, observed, batch, h))
  {
    if batch != [] {
      var n := |batch| - 1;
      HarvestAllBacked(cfg, events, rows, observed, batch[..n], h);
      assert batch[n] in batch;
      HarvestOneBacked(cfg, events, rows, observed, batch[n], HarvestAll(cfg, rows, observed, batch[..n], h));
    }
  }

  ghost predicate WriterBacked(cfg: Config, events: seq<Event>, w: Writer) {
    DiskBacked(cfg, events, w.disk) && Remembered(cfg, events, w.mem.candidates, w.mem.absentSince)
  }

  lemma AppendGapBacked(cfg: Config, events: seq<Event>, w: Writer, gap: Gap)
    requires WriterBacked(cfg, events, w) && TwiceAbsent(events, gap)
    ensures WriterBacked(cfg, events, AppendGap(w, gap))
  {
  }

  lemma AppendRowBacked(cfg: Config, events: seq<Event>, w: Writer, row: Row, proof: Proof)
    requires WriterBacked(cfg, events, w) && TwiceSeen(cfg, events, row.time, proof)
    ensures WriterBacked(cfg, events, AppendRow(cfg, w, row, proof))
  {
  }

  lemma {:induction false} AppendsBacked(cfg: Config, events: seq<Event>, w: Writer, gaps: seq<Gap>,
                                         proofs: seq<(Row, Proof)>)
    requires WriterBacked(cfg, events, w)
    requires forall i :: 0 <= i < |gaps| ==> TwiceAbsent(events, gaps[i])
    requires forall i :: 0 <= i < |proofs| ==> TwiceSeen(cfg, events, proofs[i].0.time, proofs[i].1)
    ensures WriterBacked(cfg, events, AppendRows(cfg, AppendGaps(w, gaps), proofs))
    decreases |gaps| + |proofs|
  {
    if proofs != [] {
      var n := |proofs| - 1;
      AppendsBacked(cfg, events, w, gaps, proofs[..n]);
      AppendRowBacked(cfg, events, AppendRows(cfg, AppendGaps(w, gaps), proofs[..n]), proofs[n].0, proofs[n].1);
    } else if gaps != [] {
      var n := |gaps| - 1;
      AppendsBacked(cfg, events, w, gaps[..n], []);
      AppendGapBacked(cfg, events, AppendGaps(w, gaps[..n]), gaps[n]);
    }
  }

  lemma AttemptBacked(cfg: Config, events: seq<Event>, d: Disk, mem: Memory, tick: Tick, pending: seq<int>, lo: int,
                      hi: int)
    requires events != [] && events[|events| - 1] == Loop(tick)
    requires Backed(cfg, events, State(d, Up(mem)))
    requires forall ts :: ts in UpTo(pending, hi) ==> lo <= ts
    ensures Backed(cfg, events, Attempt(cfg, d, mem, tick, pending, lo, hi))
  {
    if tick.reachable && ParseRows(tick.body, lo, hi).Ok? {
      var rows := ParseRows(tick.body, lo, hi).value;
      var batch := UpTo(pending, hi);
      ParsedRowsValid(tick.body, lo, hi);
      forall ts | ts in batch ensures Answered(cfg, events, rows, tick.observed, ts) {
        ParsedRowsShown(cfg, tick.body, lo, hi, ts);
      }
      var h0 := Harvest(mem.absentSince, mem.candidates, [], [], Going);
      HarvestAllBacked(cfg, events, rows, tick.observed, batch, h0);
      var h := HarvestAll(cfg, rows, tick.observed, batch, h0);
      var w := Writer(d, mem.(absentSince := h.absentSince, candidates := h.candidates), tick.budget, Writing);
      AppendsBacked(cfg, events, w, h.absent, h.proofs);
    }
  }

  lemma {:induction false} RunBacked(cfg: Config, events: seq<Event>)
    ensures Backed(cfg, events, Run(cfg, events))
  {
    if events != [] {
      var n := |events| - 1;
      var init, e := events[..n], events[n];
      var s := Run(cfg, init);
      assert events == init + [e];
      RunBacked(cfg, init);
      RunKeeps(cfg, init);
      MoreEvents(cfg, init, e, s);
      if e.Loop? && s.proc.Up? && PlanFetch(cfg, s.proc.mem, e.tick.now, e.tick.steady).Fetch? {
        var plan := PlanFetch(cfg, s.proc.mem, e.tick.now, e.tick.steady);
        PlanIsGood(cfg, s.disk, s.proc.mem, e.tick.now, e.tick.steady);
        AttemptBacked(cfg, events, s.disk, s.proc.mem, e.tick, plan.pending, plan.lo, plan.hi);
      }
    }
  }

  /** Every published row was shown with one and the same fingerprint by two responses at least five seconds
      apart, the first no earlier than five seconds after the close; a live row was confirmed within ninety
      seconds of the close and on its own local day. */
  lemma PublishedRowsConfirmed(cfg: Config, events: seq<Event>, k: nat)
    requires k < |Run(cfg, events).disk.stream|
    ensures var e := Run(cfg, events).disk.stream[k];
            var ts, proof := e.env.time, e.env.proof;
            && StoredRow(cfg, e).Ok? && proof.candle == cfg.fingerprint(StoredRow(cfg, e).value)
            && SeenAt(cfg, events, ts, proof.candle, proof.first)
            && SeenAt(cfg, events, ts, proof.candle, proof.confirmed)
            && proof.first >= ts + 605 && proof.confirmed >= proof.first + 5
            && (proof.origin == Live <==> Day(ts) >= cfg.live && !ContextOnly(cfg, Day(ts)))
            && (proof.origin == Live ==> proof.confirmed <= ts + 690 && Day(proof.confirmed) == Day(ts))
  {
    RunKeeps(cfg, events);
    RunBacked(cfg, events);
    var e := Run(cfg, events).disk.stream[k];
    assert GoodEntry(cfg, e);
    StoredRowExact(cfg, e, StoredRow(cfg, e).value);
  }

  /** Every recorded absence rests on two responses without the bar, at least five seconds apart and no earlier
      than ninety seconds after the close. */
  lemma AbsencesConfirmed(cfg: Config, events: seq<Event>, k: nat)
    requires k < |Run(cfg, events).disk.gaps|
    ensures var gap := Run(cfg, events).disk.gaps[k];
            && AbsentAt(events, gap.ts, gap.firstAbsent) && AbsentAt(events, gap.ts, gap.confirmedAbsent)
            && gap.firstAbsent >= gap.ts + 690 && gap.confirmedAbsent >= gap.firstAbsent + 5
            && ContextOnly(cfg, Day(gap.ts))
  {
    RunKeeps(cfg, events);
    RunBacked(cfg, events);
    assert GoodGap(cfg, Run(cfg, events).disk.gaps[k]);
  }

  // ---- The gap file stays readable ----

  /** Every clock reading after a fetch can be written in a hundred characters. */
  ghost predicate ShortReadings(events: seq<Event>) {
    forall i :: 0 <= i < |events| && events[i].Loop? ==> |Decimal(events[i].tick.observed)| <= 100
  }

  lemma LabelLength(cfg: Config, ts: int)
    requires InCalendar(cfg, ts) && -1_000_000 <= cfg.start <= 4_000_000
    ensures |Decimal(ts)| <= 13
  {
    assert Power(12) == 1_000_000_000_000;
    DecimalLength(if ts < 0 then -ts else ts, 12);
  }

  lemma {:induction false} GapBytesBound(gaps: seq<Gap>)
    requires forall i :: 0 <= i < |gaps| ==> |GapText(gaps[i])| <= 379
    ensures GapBytes(gaps) <= 379 * |gaps|
  {
    hide GapText;
    if gaps != [] { GapBytesBound(gaps[..|gaps| - 1]); }
  }

  /** For every start day that a date can name, no run writes a gap file over the limit. */
  lemma GapFileFits(cfg: Config, events: seq<Event>)
    requires -1_000_000 <= cfg.start <= 4_000_000 && ShortReadings(events)
    ensures GapBytes(Run(cfg, events).disk.gaps) <= MAX_AUDIT
  {
    hide Run, GapText, GapBytes, Decimal;
    var d := Run(cfg, events).disk;
    RunKeeps(cfg, events);
    WithinBudget(cfg, d);
    forall k | 0 <= k < |d.gaps| ensures |GapText(d.gaps[k])| <= 379 {
      AbsencesConfirmed(cfg, events, k);
      assert GoodGap(cfg, d.gaps[k]);
      GapTextLength(d.gaps[k]);
      LabelLength(cfg, d.gaps[k].ts);
    }
    GapBytesBound(d.gaps);
  }

  /** So in practice a dead process restarts exactly when it left no failure marker and had published. */
  lemma RestartAlways(cfg: Config, events: seq<Event>)
    requires -1_000_000 <= cfg.start <= 4_000_000 && ShortReadings(events) && Run(cfg, events).proc.Down?
    ensures var d := Run(cfg, events).disk;
            Step(cfg, Run(cfg, events), Restart).proc.Up? <==> !d.failed && d.stream != []
  {
    hide Run, Step, GapBytes;
    RestartExactly(cfg, events);
    GapFileFits(cfg, events);
  }
}
