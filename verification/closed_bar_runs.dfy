/** Theorems about whole runs of the publisher, with any readings, responses, deaths and restarts. */
module ClosedBarRuns {
  import opened Results
  import opened Calendar
  import opened Increasing
  import opened ClosedBars
  import opened ClosedBarLoop
  import opened ClosedBarSafety

  // ---- Resume ----

  ghost predicate Loaded(cfg: Config, stream: seq<Entry>, rows: map<int, Row>) {
    && (forall i :: 0 <= i < |stream| ==>
          stream[i].env.time in rows && StoredRow(cfg, stream[i]) == Ok(rows[stream[i].env.time]))
    && (forall ts :: ts in rows ==> exists i :: 0 <= i < |stream| && stream[i].env.time == ts)
  }

  lemma LoadedSnoc(cfg: Config, stream: seq<Entry>, rows: map<int, Row>, e: Entry, row: Row)
    requires Loaded(cfg, stream, rows) && StoredRow(cfg, e) == Ok(row) && row.time == e.env.time
    requires forall i :: 0 <= i < |stream| ==> stream[i].env.time != row.time
    ensures Loaded(cfg, stream + [e], rows[row.time := row])
  {
    var more := stream + [e];
    assert more[|stream|] == e && forall i :: 0 <= i < |stream| ==> more[i] == stream[i];
    forall ts | ts in rows ensures exists i :: 0 <= i < |more| && more[i].env.time == ts {
      var i :| 0 <= i < |stream| && stream[i].env.time == ts;
      assert more[i].env.time == ts;
    }
  }

  lemma StoredRowTime(cfg: Config, e: Entry)
    requires StoredRow(cfg, e).Ok?
    ensures StoredRow(cfg, e).value.time == e.env.time
  {
  }

  lemma {:induction false} LoadStreamAccepts(cfg: Config, stream: seq<Entry>)
    requires forall i :: 0 <= i < |stream| ==> StoredRow(cfg, stream[i]).Ok?
    requires forall i, j :: 0 <= i < j < |stream| ==> stream[i].env.time < stream[j].env.time
    ensures LoadStream(cfg, stream).Ok? && Loaded(cfg, stream, LoadStream(cfg, stream).value)
  {
    if stream != [] {
      var n := |stream| - 1;
      var init, e := stream[..n], stream[n];
      assert stream == init + [e];
      LoadStreamAccepts(cfg, init);
      StoredRowTime(cfg, e);
      LoadedSnoc(cfg, init, LoadStream(cfg, init).value, e, StoredRow(cfg, e).value);
    }
  }

  lemma {:induction false} LoadGapsAccepts(cfg: Config, d: Disk)
    requires Sound(cfg, d)
    ensures var r := LoadGaps(cfg, StreamLabels(d), d.gaps); r.Some? && r.value.Keys == GapLabels(d)
    decreases |d.gaps|
  {
    if d.gaps != [] {
      var n := |d.gaps| - 1;
      var d' := d.(gaps := d.gaps[..n]);
      assert d.gaps == d'.gaps + [d.gaps[n]];
      GapLabelsSnoc(d', d.gaps[n]);
      assert Sound(cfg, d') by { assert forall i :: 0 <= i < n ==> d'.gaps[i] == d.gaps[i]; }
      LoadGapsAccepts(cfg, d');
      assert d.gaps[n].ts in GapLabels(d);
      assert d.gaps[n].ts !in GapLabels(d') by {
        assert forall i :: 0 <= i < n ==> d'.gaps[i].ts == d.gaps[i].ts;
      }
    }
  }

  lemma StreamLoads(cfg: Config, d: Disk)
    requires Sound(cfg, d)
    ensures var r := LoadStream(cfg, d.stream); r.Ok? && MirrorsStream(cfg, d, r.value)
  {
    assert forall i :: 0 <= i < |d.stream| ==> GoodEntry(cfg, d.stream[i]);
    LoadStreamAccepts(cfg, d.stream);
    KeysAreLabels(d, LoadStream(cfg, d.stream).value);
  }

  lemma KeysAreLabels(d: Disk, rows: map<int, Row>)
    requires forall i :: 0 <= i < |d.stream| ==> d.stream[i].env.time in rows
    requires forall ts :: ts in rows ==> exists i :: 0 <= i < |d.stream| && d.stream[i].env.time == ts
    ensures rows.Keys == StreamLabels(d)
  {
    forall ts ensures ts in rows.Keys <==> ts in StreamLabels(d) {
      if ts in rows {
        var i :| 0 <= i < |d.stream| && d.stream[i].env.time == ts;
      }
    }
  }

  /** Resume re-validates everything it reads and accepts whatever the publisher itself wrote: the only reasons
      to refuse are the failure marker, an empty stream and an oversized gap file. Memory is then rebuilt from disk. */
  lemma ResumeExactly(cfg: Config, d: Disk)
    requires Sound(cfg, d)
    ensures Restore(cfg, d).Some? <==> !d.failed && d.stream != [] && GapBytes(d.gaps) <= MAX_AUDIT
    ensures Restore(cfg, d).Some? ==> Mirrors(cfg, d, Restore(cfg, d).value)
  {
    hide Sound, LoadStream, LoadGaps, GapBytes, GapLabels;
    WithinBudget(cfg, d);
    StreamLoads(cfg, d);
    var published := LoadStream(cfg, d.stream).value;
    PublishedCount(cfg, d, published);
    LoadGapsAccepts(cfg, d);
  }

  lemma PublishedCount(cfg: Config, d: Disk, published: map<int, Row>)
    requires Sound(cfg, d) && published.Keys == StreamLabels(d)
    ensures |published| == |d.stream|
  {
    StreamCount(d);
    assert |published| == |published.Keys|;
  }

  // ---- The invariant over runs ----

  lemma StepKeeps(cfg: Config, s: State, e: Event)
    requires Inv(cfg, s)
    ensures Inv(cfg, Step(cfg, s, e))
  {
    match e
    case Kill =>
    case Restart => ResumeExactly(cfg, s.disk);
    case Loop(tick) =>
      FailKeeps(cfg, s.disk);
      if s.proc.Up? && PlanFetch(cfg, s.proc.mem, tick.now, tick.steady).Fetch? {
        var plan := PlanFetch(cfg, s.proc.mem, tick.now, tick.steady);
        PlanIsGood(cfg, s.disk, s.proc.mem, tick.now, tick.steady);
        AttemptKeeps(cfg, s.disk, s.proc.mem, tick, plan.pending, plan.lo, plan.hi);
      }
  }

  lemma {:induction false} RunKeeps(cfg: Config, events: seq<Event>)
    ensures Inv(cfg, Run(cfg, events))
  {
    if events != [] {
      RunKeeps(cfg, events[..|events| - 1]);
      StepKeeps(cfg, Run(cfg, events[..|events| - 1]), events[|events| - 1]);
    }
  }

  /** In every reachable durable state the two files are disjoint and leave no hole below the newest published
      label, absences lie on context-only days, and a regular day with a later published label is complete. */
  lemma NoHolesEver(cfg: Config, events: seq<Event>)
    ensures var d := Run(cfg, events).disk;
            && StreamLabels(d) !! GapLabels(d)
            && (forall p, ts ::
                 p in StreamLabels(d) && ts <= p && cfg.start <= Day(ts) && IsSlot(cfg, ts) ==> ts in Known(d))
            && (forall ts :: ts in GapLabels(d) ==> ContextOnly(cfg, Day(ts)))
            && (forall day, p :: cfg.start <= day && !ContextOnly(cfg, day) && p in StreamLabels(d) && Day(p) > day ==>
                  |Slots(cfg, day)| == 101 && forall ts :: ts in Slots(cfg, day) ==> ts in StreamLabels(d))
  {
    var d := Run(cfg, events).disk;
    RunKeeps(cfg, events);
    forall p, ts | p in StreamLabels(d) && ts <= p && cfg.start <= Day(ts) && IsSlot(cfg, ts) ensures ts in Known(d) {
      DayMonotone(ts, p);
    }
    forall day, p | cfg.start <= day && !ContextOnly(cfg, day) && p in StreamLabels(d) && Day(p) > day
      ensures |Slots(cfg, day)| == 101 && forall ts :: ts in Slots(cfg, day) ==> ts in StreamLabels(d)
    {
      SlotsExact(cfg, day, p);
      forall ts | ts in Slots(cfg, day) ensures ts in StreamLabels(d) {
        SlotsExact(cfg, day, ts);
        assert ts <= p by { if p <= ts { DayMonotone(p, ts); } }
        assert IsSlot(cfg, ts) && ts in Known(d);
      }
    }
  }

  /** After any run a dead process can be restarted exactly when it left no failure marker, had published, and its
      gap file is within the limit on reading it. */
  lemma RestartExactly(cfg: Config, events: seq<Event>)
    requires Run(cfg, events).proc.Down?
    ensures var d := Run(cfg, events).disk;
            Step(cfg, Run(cfg, events), Restart).proc.Up? <==>
              !d.failed && d.stream != [] && GapBytes(d.gaps) <= MAX_AUDIT
  {
    hide Run, Restore, Mirrors, Covered;
    RunKeeps(cfg, events);
    hide Sound, GapBytes;
    ResumeExactly(cfg, Run(cfg, events).disk);
  }

  lemma {:induction false} AppendsOnly(cfg: Config, w: Writer, gaps: seq<Gap>, proofs: seq<(Row, Proof)>)
    ensures var d := AppendRows(cfg, AppendGaps(w, gaps), proofs).disk;
            w.disk.stream <= d.stream && w.disk.gaps <= d.gaps && d.failed == w.disk.failed
    decreases |gaps| + |proofs|
  {
    if proofs != [] {
      AppendsOnly(cfg, w, gaps, proofs[..|proofs| - 1]);
    } else if gaps != [] {
      AppendsOnly(cfg, w, gaps[..|gaps| - 1], []);
    }
  }

  lemma AttemptAppends(cfg: Config, d: Disk, mem: Memory, tick: Tick, pending: seq<int>, lo: int, hi: int)
    ensures var d' := Attempt(cfg, d, mem, tick, pending, lo, hi).disk; d.stream <= d'.stream && d.gaps <= d'.gaps
  {
    if tick.reachable && ParseRows(tick.body, lo, hi).Ok? {
      var h := HarvestAll(cfg, ParseRows(tick.body, lo, hi).value, tick.observed, UpTo(pending, hi),
                          Harvest(mem.absentSince, mem.candidates, [], [], Going));
      var mem' := mem.(absentSince := h.absentSince, candidates := h.candidates);
      AppendsOnly(cfg, Writer(d, mem', tick.budget, Writing), h.absent, h.proofs);
    }
  }

  /** Nothing written is ever changed, and after a failure nothing is written at all. */
  lemma AppendOnly(cfg: Config, s: State, e: Event)
    ensures var s' := Step(cfg, s, e);
            && s.disk.stream <= s'.disk.stream && s.disk.gaps <= s'.disk.gaps
            && (Inv(cfg, s) && s.disk.failed ==> s' == s)
  {
    if e.Loop? && s.proc.Up? && PlanFetch(cfg, s.proc.mem, e.tick.now, e.tick.steady).Fetch? {
      var plan := PlanFetch(cfg, s.proc.mem, e.tick.now, e.tick.steady);
      AttemptAppends(cfg, s.disk, s.proc.mem, e.tick, plan.pending, plan.lo, plan.hi);
    }
  }

  // ---- Clock ----

  /** Every known label was due at or before `now`. */
  ghost predicate Passed(d: Disk, now: int) {
    forall ts :: ts in Known(d) ==> ts + TF + GRACE <= now
  }

  predicate ClockNeverBack(events: seq<Event>) {
    forall i, j :: 0 <= i < j < |events| && events[i].Loop? && events[j].Loop?
        ==> events[i].tick.now <= events[j].tick.now
  }

  lemma {:induction false} AppendsKnown(cfg: Config, w: Writer, gaps: seq<Gap>, proofs: seq<(Row, Proof)>, ts: int)
    requires ts in Known(AppendRows(cfg, AppendGaps(w, gaps), proofs).disk)
    ensures ts in Known(w.disk) || ts in AbsentLabels(gaps) || ts in ProofLabels(proofs)
    decreases |gaps| + |proofs|
  {
    if proofs != [] {
      var n := |proofs| - 1;
      var w1 := AppendRows(cfg, AppendGaps(w, gaps), proofs[..n]);
      assert ProofLabels(proofs)[n] == proofs[n].0.time && ProofLabels(proofs)[..n] == ProofLabels(proofs[..n]);
      StreamLabelsSnoc(w1.disk, EnvelopeOf(cfg, proofs[n].0, proofs[n].1));
      if ts in Known(w1.disk) { AppendsKnown(cfg, w, gaps, proofs[..n], ts); }
    } else if gaps != [] {
      var n := |gaps| - 1;
      var w1 := AppendGaps(w, gaps[..n]);
      assert AbsentLabels(gaps)[n] == gaps[n].ts && AbsentLabels(gaps)[..n] == AbsentLabels(gaps[..n]);
      GapLabelsSnoc(w1.disk, gaps[n]);
      if ts in Known(w1.disk) { AppendsKnown(cfg, w, gaps[..n], [], ts); }
    }
  }

  lemma AttemptPassed(cfg: Config, d: Disk, mem: Memory, tick: Tick, pending: seq<int>, lo: int, hi: int)
    requires Sound(cfg, d) && Covered(cfg, d) && Mirrors(cfg, d, mem) && Passed(d, tick.now)
    requires GoodPlan(cfg, StreamLabels(d), Known(d), pending, lo, hi)
    requires forall ts :: ts in pending ==> ts + TF + GRACE <= tick.now
    ensures Passed(Attempt(cfg, d, mem, tick, pending, lo, hi).disk, tick.now)
  {
    hide Sound, Covered, Mirrors, HarvestAll, AppendRows, AppendGaps, ValidRows, ParsePrefix, GoodProofs, GoodAbsences,
        Tally;
    var s' := Attempt(cfg, d, mem, tick, pending, lo, hi);
    assert Known(d.(failed := true)) == Known(d);
    if tick.reachable && ParseRows(tick.body, lo, hi).Ok? {
      var rows := ParseRows(tick.body, lo, hi).value;
      ParsedRowsValid(tick.body, lo, hi);
      PlannedHarvest(cfg, d, mem, pending, lo, hi, rows, tick.observed);
      var batch := UpTo(pending, hi);
      var h := HarvestAll(cfg, rows, tick.observed, batch, Harvest(mem.absentSince, mem.candidates, [], [], Going));
      LabelsWithin(cfg, batch, h);
      var w := Writer(d, mem.(absentSince := h.absentSince, candidates := h.candidates), tick.budget, Writing);
      var d1 := AppendRows(cfg, AppendGaps(w, h.absent), h.proofs).disk;
      assert Known(d1.(failed := true)) == Known(d1);
      forall ts | ts in Known(d1) ensures ts + TF + GRACE <= tick.now {
        AppendsKnown(cfg, w, h.absent, h.proofs, ts);
      }
    }
  }

  lemma PlannedAreDue(cfg: Config, mem: Memory, now: int, steady: bool)
    requires PlanFetch(cfg, mem, now, steady).Fetch?
    ensures forall ts :: ts in PlanFetch(cfg, mem, now, steady).pending ==> ts + TF + GRACE <= now
  {
    DueExact(cfg, now);
  }

  lemma StepPassed(cfg: Config, s: State, e: Event, now: int)
    requires Inv(cfg, s) && Passed(s.disk, now) && (e.Loop? ==> now <= e.tick.now)
    ensures Passed(Step(cfg, s, e).disk, if e.Loop? then e.tick.now else now)
  {
    hide PlanFetch, Attempt, Sound, Covered, Mirrors, GoodPlan, Restore;
    if e.Loop? {
      assert Known(s.disk.(failed := true)) == Known(s.disk);
      if s.proc.Up? && PlanFetch(cfg, s.proc.mem, e.tick.now, e.tick.steady).Fetch? {
        var mem, plan := s.proc.mem, PlanFetch(cfg, s.proc.mem, e.tick.now, e.tick.steady);
        PlanIsGood(cfg, s.disk, mem, e.tick.now, e.tick.steady);
        PlannedAreDue(cfg, mem, e.tick.now, e.tick.steady);
        AttemptPassed(cfg, s.disk, mem, e.tick, plan.pending, plan.lo, plan.hi);
      }
    }
  }

  lemma {:induction false} RunPassed(cfg: Config, events: seq<Event>, now: int)
    requires ClockNeverBack(events)
    requires forall i :: 0 <= i < |events| && events[i].Loop? ==> events[i].tick.now <= now
    ensures Passed(Run(cfg, events).disk, now)
  {
    if events != [] {
      var n := |events| - 1;
      var init, e := events[..n], events[n];
      RunKeeps(cfg, init);
      var before := if e.Loop? then e.tick.now else now;
      RunPassed(cfg, init, before);
      StepPassed(cfg, Run(cfg, init), e, before);
    }
  }

  /** While the clock never goes back, neither consistency check of the loop can fail, after any deaths. */
  lemma ChecksNeverFail(cfg: Config, events: seq<Event>, tick: Tick)
    requires ClockNeverBack(events + [Loop(tick)]) && Run(cfg, events).proc.Up?
    ensures PlanFetch(cfg, Run(cfg, events).proc.mem, tick.now, tick.steady)
            !in {Refuse(UnexpectedLabel), Refuse(PrefixMissing)}
  {
    var all, s := events + [Loop(tick)], Run(cfg, events);
    RunKeeps(cfg, events);
    assert all[|events|] == Loop(tick) && forall i :: 0 <= i < |events| ==> all[i] == events[i];
    RunPassed(cfg, events, tick.now);
    PrefixNeverMissing(cfg, s.disk, s.proc.mem, tick.now, tick.steady);
    if tick.steady && Day(tick.now) - cfg.start <= LIFETIME {
      UnexpectedExactly(cfg, s.disk, s.proc.mem, tick.now);
    }
  }

  // ---- Fetch and count test ----

  /** Whenever a run fetches, the first pending label follows every published one, the batch is non-empty and
      lies within one local day and the request window, and the two newest published rows are fetched again. */
  lemma FetchesAreGood(cfg: Config, events: seq<Event>, tick: Tick)
    requires Run(cfg, events).proc.Up? && PlanFetch(cfg, Run(cfg, events).proc.mem, tick.now, tick.steady).Fetch?
    ensures var s := Run(cfg, events);
            var plan := PlanFetch(cfg, s.proc.mem, tick.now, tick.steady);
            var batch := UpTo(plan.pending, plan.hi);
            && batch != [] && plan.pending[0] in batch
            && (forall p :: p in StreamLabels(s.disk) ==> p < plan.pending[0])
            && (forall ts :: ts in batch ==>
                 plan.lo <= ts <= plan.hi && Day(ts) == Day(plan.pending[0]) && ts !in Known(s.disk))
            && (forall p :: p in NewestTwo(StreamLabels(s.disk)) ==> plan.lo <= p <= plan.hi)
  {
    RunKeeps(cfg, events);
    PlanIsGood(cfg, Run(cfg, events).disk, Run(cfg, events).proc.mem, tick.now, tick.steady);
  }

  /** Comparing counts is as good as checking labels: the batch is complete exactly when each label is resolved. */
  lemma CountTestExact(cfg: Config, events: seq<Event>, tick: Tick, rows: map<int, Row>)
    requires Run(cfg, events).proc.Up? && ValidRows(rows)
    requires PlanFetch(cfg, Run(cfg, events).proc.mem, tick.now, tick.steady).Fetch?
    ensures var mem := Run(cfg, events).proc.mem;
            var plan := PlanFetch(cfg, mem, tick.now, tick.steady);
            var batch := UpTo(plan.pending, plan.hi);
            var h := HarvestAll(cfg, rows, tick.observed, batch,
                Harvest(mem.absentSince, mem.candidates, [], [], Going));
            |h.proofs| + |h.absent| == |batch| <==> forall ts :: ts in batch ==> Resolved(h, ts)
  {
    var s := Run(cfg, events);
    var mem, plan := s.proc.mem, PlanFetch(cfg, s.proc.mem, tick.now, tick.steady);
    RunKeeps(cfg, events);
    PlanIsGood(cfg, s.disk, mem, tick.now, tick.steady);
    PlannedHarvest(cfg, s.disk, mem, plan.pending, plan.lo, plan.hi, rows, tick.observed);
  }
}
