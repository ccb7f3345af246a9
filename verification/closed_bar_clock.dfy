/** A clock that steps back within its tolerance, and what the publisher makes of it. */
module ClosedBarClock {
  import opened Results
  import opened Calendar
  import opened Increasing
  import opened ClosedBars
  import opened ClosedBarLoop
  import opened ClosedBarSafety
  import opened ClosedBarRuns

  /** The wall clock has drifted from the monotonic one by no more than five seconds since the start. */
  predicate Steady(wall: int, monotonic: int) { -5 <= wall - monotonic <= 5 }

  function FirstSlot(cfg: Config): int { At(cfg.start, 420) }

  function Sample(cfg: Config): Row { Row(FirstSlot(cfg), 1.0, 1.0, 1.0, 1.0, 1.0) }

  /** An iteration that meets the first bar; the process started at the bar's own label. */
  function Meets(cfg: Config, wall: int, monotonic: int, fetched: int): Tick {
    var ts := FirstSlot(cfg);
    Tick(ts + wall, Steady(wall, monotonic), true, [Candle(ts, 1.0, 1.0, 1.0, 1.0, 1.0)], ts + fetched, -1, false)
  }

  lemma OnlyFirst(cfg: Config, now: int, x: int)
    requires !ContextOnly(cfg, cfg.start) && FirstSlot(cfg) + 605 <= now < FirstSlot(cfg) + 1205
    ensures IsDue(cfg, now, x) <==> x == FirstSlot(cfg)
  {
    var ts := FirstSlot(cfg);
    AtInverse(cfg.start, 420);
    SlotsExact(cfg, Day(x), x);
    hide Slots;
    if IsDue(cfg, now, x) {
      assert ts <= Opening(cfg, Day(x)) <= x < ts + 600;
      assert Day(x) == cfg.start;
    }
  }

  lemma FirstDue(cfg: Config, now: int)
    requires !ContextOnly(cfg, cfg.start) && FirstSlot(cfg) + 605 <= now < FirstSlot(cfg) + 1205
    ensures Due(cfg, now) == [FirstSlot(cfg)]
  {
    hide Due, IsDue, FirstSlot;
    DueExact(cfg, now);
    forall x ensures x in Due(cfg, now) <==> x in [FirstSlot(cfg)] { OnlyFirst(cfg, now, x); }
    Unique(Due(cfg, now), [FirstSlot(cfg)]);
  }

  lemma FirstPlan(cfg: Config, mem: Memory, now: int)
    requires !ContextOnly(cfg, cfg.start) && FirstSlot(cfg) + 605 <= now <= FirstSlot(cfg) + 690
    requires mem.published == map[] && mem.gaps == map[]
    ensures var plan, ts := PlanFetch(cfg, mem, now, true), FirstSlot(cfg);
            plan.Fetch? && plan.pending == [ts] && plan.lo <= ts == plan.hi
  {
    var ts := FirstSlot(cfg);
    FirstDue(cfg, now);
    hide Due;
    AtInverse(cfg.start, 420);
    assert mem.published.Keys + mem.gaps.Keys == {};
    assert Day(now) == cfg.start;
    assert [ts] == [] + [ts] && [ts][..0] == [];
    assert Without([ts], {}) == [ts];
  }

  lemma OneRow(cfg: Config, lo: int)
    requires FirstSlot(cfg) > 0 && lo <= FirstSlot(cfg)
    ensures var ts, row := FirstSlot(cfg), Sample(cfg);
            && ParseRows([Candle(ts, 1.0, 1.0, 1.0, 1.0, 1.0)], lo, ts) == Ok(map[ts := row])
            && UpTo([ts], ts) == [ts]
  {
    var ts := FirstSlot(cfg);
    var raw := Candle(ts, 1.0, 1.0, 1.0, 1.0, 1.0);
    assert [raw][..0] == [] && [ts][..0] == [];
    assert CheckBar(raw) == Ok(Sample(cfg));
    var none: map<int, Row> := map[];
    assert ParsePrefix([], lo, ts) == Ok(none);
    assert ParsePrefix([raw], lo, ts) == Ok(none[ts := Sample(cfg)]);
  }

  /** The harvest of the first bar alone. */
  lemma OneHarvest(cfg: Config, observed: int, candidates: map<int, Candidate>)
    ensures var ts, rows := FirstSlot(cfg), map[FirstSlot(cfg) := Sample(cfg)];
            var h := Harvest(map[], candidates, [], [], Going);
            HarvestAll(cfg, rows, observed, [ts], h) == HarvestOne(cfg, rows, observed, ts, h)
  {
    assert [FirstSlot(cfg)][..0] == [];
  }

  /** The bar is first seen five seconds after its close. */
  lemma SeenOnce(cfg: Config)
    requires !ContextOnly(cfg, cfg.start) && FirstSlot(cfg) > 0
    ensures var ts, t1 := FirstSlot(cfg), Meets(cfg, 605, 602, 605);
            var seen := map[ts := Candidate(cfg.fingerprint(Sample(cfg)), ts + 605)];
            Iterate(cfg, Fresh, t1) == Fresh.(proc := Up(Memory(map[], map[], map[], seen, 0)))
  {
    hide PlanFetch, ParseRows, HarvestAll, AppendRows, AppendGaps;
    var ts, t1, mem := FirstSlot(cfg), Meets(cfg, 605, 602, 605), Fresh.proc.mem;
    FirstPlan(cfg, mem, t1.now);
    var plan := PlanFetch(cfg, mem, t1.now, true);
    OneRow(cfg, plan.lo);
    OneHarvest(cfg, t1.observed, map[]);
    AtInverse(cfg.start, 420);
    var none: map<int, int> := map[];
    assert none - {ts} == none;
  }

  function Proof2(cfg: Config): Proof {
    var ts := FirstSlot(cfg);
    Proof(VERSION, OriginOf(cfg, ts), ts + 605, ts + 610, ts + TF, cfg.fingerprint(Sample(cfg)))
  }

  /** The second sight of the bar proves it. */
  lemma SecondHarvest(cfg: Config, h: Harvest)
    requires !ContextOnly(cfg, cfg.start) && FirstSlot(cfg) > 0
    requires var seen := map[FirstSlot(cfg) := Candidate(cfg.fingerprint(Sample(cfg)), FirstSlot(cfg) + 605)];
             h == Harvest(map[], seen, [], [], Going)
    ensures var ts := FirstSlot(cfg);
            HarvestAll(cfg, map[ts := Sample(cfg)], ts + 610, [ts], h) == h.(proofs := [(Sample(cfg), Proof2(cfg))])
  {
    var ts := FirstSlot(cfg);
    OneHarvest(cfg, ts + 610, h.candidates);
    AtInverse(cfg.start, 420);
    var none: map<int, int> := map[];
    assert none - {ts} == none;
    assert h.proofs + [(Sample(cfg), Proof2(cfg))] == [(Sample(cfg), Proof2(cfg))];
  }

  /** With an empty stream and a process that survives, one proof is one append. */
  lemma OneAppend(cfg: Config, w: Writer, row: Row, proof: Proof)
    requires w.fate == Writing && w.mem.count == 0 && w.budget < 0 && w.disk.stream == []
    ensures var w' := AppendRows(cfg, AppendGaps(w, []), [(row, proof)]);
            w'.fate == Writing && w'.disk.stream == [EnvelopeOf(cfg, row, proof)]
  {
    assert [(row, proof)][..0] == [];
    assert AppendRows(cfg, w, [(row, proof)]) == AppendRow(cfg, AppendRows(cfg, w, []), row, proof);
  }

  lemma SecondAttempt(cfg: Config, disk: Disk, mem: Memory, lo: int)
    requires !ContextOnly(cfg, cfg.start) && FirstSlot(cfg) > 0 && lo <= FirstSlot(cfg) && disk.stream == []
    requires var seen := map[FirstSlot(cfg) := Candidate(cfg.fingerprint(Sample(cfg)), FirstSlot(cfg) + 605)];
             mem == Memory(map[], map[], map[], seen, 0)
    ensures var s' := Attempt(cfg, disk, mem, Meets(cfg, 608, 605, 610), [FirstSlot(cfg)], lo, FirstSlot(cfg));
            s'.proc.Up? && s'.disk.stream == [EnvelopeOf(cfg, Sample(cfg), Proof2(cfg))]
  {
    hide ParseRows, HarvestAll, AppendRows, AppendGaps, Proof2, Sample, FirstSlot, UpTo;
    OneRow(cfg, lo);
    SecondHarvest(cfg, Harvest(map[], mem.candidates, [], [], Going));
    OneAppend(cfg, Writer(disk, mem, -1, Writing), Sample(cfg), Proof2(cfg));
  }

  /** Five seconds later it is seen again and published. */
  lemma SeenTwice(cfg: Config, s: State)
    requires !ContextOnly(cfg, cfg.start) && FirstSlot(cfg) > 0
    requires s == Iterate(cfg, Fresh, Meets(cfg, 605, 602, 605))
    ensures var s' := Iterate(cfg, s, Meets(cfg, 608, 605, 610));
            s'.proc.Up? && |s'.disk.stream| == 1 && s'.disk.stream[0].env.time == FirstSlot(cfg)
  {
    SeenOnce(cfg);
    hide PlanFetch, Attempt, Proof2, Sample, FirstSlot;
    FirstPlan(cfg, s.proc.mem, FirstSlot(cfg) + 608);
    SecondAttempt(cfg, s.disk, s.proc.mem, PlanFetch(cfg, s.proc.mem, FirstSlot(cfg) + 608, true).lo);
    SampleLabel(cfg);
  }

  lemma SampleLabel(cfg: Config)
    ensures Sample(cfg).time == FirstSlot(cfg)
  {
  }

  /** Every reading of this run is within five seconds of the monotonic clock: three seconds ahead when the first
      bar is published, four seconds behind in the next iteration, which then takes the published label for one from
      the future and ends the generation. */
  lemma ClockStepRefused(cfg: Config)
    requires !ContextOnly(cfg, cfg.start) && FirstSlot(cfg) > 0
    ensures Steady(605, 602) && Steady(608, 605) && Steady(604, 608)
    ensures var events := [Loop(Meets(cfg, 605, 602, 605)), Loop(Meets(cfg, 608, 605, 610))];
            var s := Run(cfg, events);
            && s.proc.Up? && PlanFetch(cfg, s.proc.mem, FirstSlot(cfg) + 604, true) == Refuse(UnexpectedLabel)
            && Run(cfg, events + [Loop(Meets(cfg, 604, 608, 604))]) == Fail(s.disk)
  {
    hide PlanFetch, Attempt;
    var e1, e2, e3 := Loop(Meets(cfg, 605, 602, 605)), Loop(Meets(cfg, 608, 605, 610)), Loop(Meets(cfg, 604, 608, 604));
    assert [e1][..0] == [] && [e1, e2][..1] == [e1] && ([e1, e2] + [e3])[..2] == [e1, e2];
    assert Run(cfg, []) == Fresh && Run(cfg, [e1]) == Step(cfg, Fresh, e1);
    SeenTwice(cfg, Iterate(cfg, Fresh, e1.tick));
    var s := Run(cfg, [e1, e2]);
    RunKeeps(cfg, [e1, e2]);
    AtInverse(cfg.start, 420);
    assert FirstSlot(cfg) in StreamLabels(s.disk);
    UnexpectedExactly(cfg, s.disk, s.proc.mem, FirstSlot(cfg) + 604);
  }
}
