/** What every run of the publisher keeps: coverage without holes, accepted resumes, bounded size. */
module ClosedBarSafety {
  import opened Results
  import opened Calendar
  import opened Increasing
  import opened ClosedBars
  import opened ClosedBarLoop

  // ---- Due labels ----

  lemma SlotsStrict(cfg: Config, day: int)
    ensures Strict(Slots(cfg, day))
  {
    SlotsExact(cfg, day, 0);
  }

  lemma {:induction false} DueDaysExact(cfg: Config, first: int, last: int, now: int, ts: int)
    ensures ts in DueDays(cfg, first, last, now) <==>
            first <= Day(ts) <= last && IsSlot(cfg, ts) && ts + TF + GRACE <= now
    decreases last - first
  {
    if first <= last {
      SlotsExact(cfg, first, ts);
      DueDaysExact(cfg, first + 1, last, now, ts);
    }
  }

  lemma {:induction false} DueDaysStrict(cfg: Config, first: int, last: int, now: int)
    ensures Strict(DueDays(cfg, first, last, now))
    ensures |DueDays(cfg, first, last, now)| <= if first <= last then 101 * (last - first + 1) else 0
    decreases last - first
  {
    hide UpTo, Slots, IsSlot;
    if first <= last {
      var today, later := UpTo(Slots(cfg, first), now - TF - GRACE), DueDays(cfg, first + 1, last, now);
      SlotsStrict(cfg, first);
      SlotsExact(cfg, first, 0);
      UpToStrict(Slots(cfg, first), now - TF - GRACE);
      DueDaysStrict(cfg, first + 1, last, now);
      forall a, b | a in today && b in later ensures a < b {
        SlotsExact(cfg, first, a);
        DueDaysExact(cfg, first + 1, last, now, b);
      }
      Concat(today, later);
    }
  }

  lemma Concat(s: seq<int>, t: seq<int>)
    requires Strict(s) && Strict(t)
    requires forall a, b :: a in s && b in t ==> a < b
    ensures Strict(s + t)
  {
    forall i, j | 0 <= i < j < |s + t| ensures (s + t)[i] < (s + t)[j] {
      if i < |s| <= j { assert s[i] in s && t[j - |s|] in t; }
    }
  }

  lemma DueExact(cfg: Config, now: int)
    ensures forall ts :: ts in Due(cfg, now) <==> IsDue(cfg, now, ts)
    ensures Strict(Due(cfg, now))
  {
    forall ts ensures ts in Due(cfg, now) <==> IsDue(cfg, now, ts) {
      DueDaysExact(cfg, cfg.start, Day(now), now, ts);
    }
    DueDaysStrict(cfg, cfg.start, Day(now), now);
  }

  // ---- The durable invariant ----

  ghost function StreamLabels(d: Disk): set<int> { set i | 0 <= i < |d.stream| :: d.stream[i].env.time }
  ghost function GapLabels(d: Disk): set<int> { set i | 0 <= i < |d.gaps| :: d.gaps[i].ts }
  ghost function Known(d: Disk): set<int> { StreamLabels(d) + GapLabels(d) }

  /** The labels a generation may ever hold: slots of the first forty-one days. */
  predicate InCalendar(cfg: Config, ts: int) { cfg.start <= Day(ts) <= cfg.start + LIFETIME && IsSlot(cfg, ts) }

  ghost predicate GoodEntry(cfg: Config, e: Entry) {
    && StoredRow(cfg, e).Ok?
    && InCalendar(cfg, e.env.time)
    && e.env.origin == OriginOf(cfg, e.env.time)
    && (e.env.origin == Live ==> Day(e.env.ts) == Day(e.env.time))
  }

  ghost predicate GoodGap(cfg: Config, gap: Gap) {
    && InCalendar(cfg, gap.ts)
    && ContextGap(cfg, gap.ts, gap.firstAbsent, gap.confirmedAbsent) == Ok(Some(gap))
  }

  /** Stream labels increase, gap labels are distinct, and no label is in both files. */
  ghost predicate Sound(cfg: Config, d: Disk) {
    && (forall i :: 0 <= i < |d.stream| ==> GoodEntry(cfg, d.stream[i]))
    && (forall i, j :: 0 <= i < j < |d.stream| ==> d.stream[i].env.time < d.stream[j].env.time)
    && (forall i :: 0 <= i < |d.gaps| ==> GoodGap(cfg, d.gaps[i]))
    && (forall i, j :: 0 <= i < j < |d.gaps| ==> d.gaps[i].ts != d.gaps[j].ts)
    && StreamLabels(d) !! GapLabels(d)
  }

  /** No hole: each calendar label up to a published one is published or recorded absent. */
  ghost predicate Covered(cfg: Config, d: Disk) {
    forall p, ts :: p in StreamLabels(d) && InCalendar(cfg, ts) && ts <= p ==> ts in Known(d)
  }

  ghost predicate MirrorsStream(cfg: Config, d: Disk, rows: map<int, Row>) {
    && rows.Keys == StreamLabels(d)
    && forall i :: 0 <= i < |d.stream| ==>
         d.stream[i].env.time in rows && StoredRow(cfg, d.stream[i]) == Ok(rows[d.stream[i].env.time])
  }

  ghost predicate Mirrors(cfg: Config, d: Disk, mem: Memory) {
    && mem.count == |d.stream|
    && MirrorsStream(cfg, d, mem.published)
    && mem.gaps.Keys == GapLabels(d)
    && (forall ts :: ts in mem.candidates ==> mem.candidates[ts].first >= ts + TF + GRACE)
  }

  ghost predicate Inv(cfg: Config, s: State) {
    && Sound(cfg, s.disk) && Covered(cfg, s.disk)
    && (s.proc.Up? ==> Mirrors(cfg, s.disk, s.proc.mem) && !s.disk.failed)
  }

  // ---- Planning ----

  /** What a planned fetch guarantees: the batch is non-empty, follows every published label, lies within one
      local day and inside the request window, the window reaches back over the two newest published rows, and
      every calendar label up to a batch label is known or in the batch. */
  ghost predicate GoodPlan(cfg: Config, published: set<int>, known: set<int>, pending: seq<int>, lo: int, hi: int) {
    var batch := UpTo(pending, hi);
    && Strict(pending) && pending != []
    && pending[0] in batch
    && (forall p :: p in published ==> p < pending[0])
    && (forall ts :: ts in batch ==>
         lo <= ts <= hi && Day(ts) == Day(pending[0]) && InCalendar(cfg, ts) && ts !in known)
    && (forall p :: p in NewestTwo(published) ==> lo <= p <= hi)
    && (forall b, ts :: b in batch && InCalendar(cfg, ts) && ts <= b ==> ts in known || ts in batch)
  }

  lemma PendingExact(cfg: Config, d: Disk, now: int)
    requires Day(now) - cfg.start <= LIFETIME
    ensures var pending := Without(Due(cfg, now), Known(d));
            Strict(pending) && forall ts :: ts in pending <==>
              InCalendar(cfg, ts) && ts + TF + GRACE <= now && ts !in Known(d)
  {
    DueExact(cfg, now);
    WithoutStrict(Due(cfg, now), Known(d));
    forall ts | IsDue(cfg, now, ts) ensures Day(ts) <= Day(now) { DayMonotone(ts, now); }
  }

  lemma BatchWithinDay(cfg: Config, first: int, ts: int, last: int)
    requires InCalendar(cfg, first) && InCalendar(cfg, ts) && first <= ts <= RequestEnd(first, last)
    ensures Day(ts) == Day(first)
  {
    AtInverse(Day(first), 1420);
    DayMonotone(first, ts);
    DayMonotone(ts, At(Day(first), 1420));
  }

  lemma PlanIsGood(cfg: Config, d: Disk, mem: Memory, now: int, steady: bool)
    requires Sound(cfg, d) && Covered(cfg, d) && Mirrors(cfg, d, mem)
    requires PlanFetch(cfg, mem, now, steady).Fetch?
    ensures var plan := PlanFetch(cfg, mem, now, steady);
            GoodPlan(cfg, StreamLabels(d), Known(d), plan.pending, plan.lo, plan.hi)
  {
    var plan := PlanFetch(cfg, mem, now, steady);
    assert mem.published.Keys + mem.gaps.Keys == Known(d);
    PlannedIsGood(cfg, d, now, plan.pending);
  }

  lemma PublishedBefore(cfg: Config, d: Disk, ts: int, p: int)
    requires Covered(cfg, d) && InCalendar(cfg, ts) && ts !in Known(d) && p in StreamLabels(d)
    ensures p < ts
  {
  }

  lemma FirstInWindow(cfg: Config, first: int, last: int)
    requires InCalendar(cfg, first) && first <= last
    ensures first <= RequestEnd(first, last)
  {
    SlotsExact(cfg, Day(first), first);
  }

  lemma PlannedIsGood(cfg: Config, d: Disk, now: int, pending: seq<int>)
    requires Sound(cfg, d) && Covered(cfg, d) && Day(now) - cfg.start <= LIFETIME
    requires pending == Without(Due(cfg, now), Known(d)) && pending != []
    ensures GoodPlan(cfg, StreamLabels(d), Known(d), pending,
                     RequestStart(pending[0], StreamLabels(d)), RequestEnd(pending[0], pending[|pending| - 1]))
  {
    hide Sound, Covered, Known, StreamLabels, InCalendar, Due, Day;
    var first, last := pending[0], pending[|pending| - 1];
    var lo, hi := RequestStart(first, StreamLabels(d)), RequestEnd(first, last);
    PendingExact(cfg, d, now);
    assert first in pending && last in pending;
    FirstInWindow(cfg, first, last);
    forall p | p in StreamLabels(d) ensures p < first { PublishedBefore(cfg, d, first, p); }
    assert lo <= first - 2 * TF && forall p :: p in NewestTwo(StreamLabels(d)) ==> lo <= p;
    forall ts | ts in UpTo(pending, hi) ensures lo <= ts <= hi && Day(ts) == Day(first) && InCalendar(cfg, ts) {
      assert first <= ts;
      BatchWithinDay(cfg, first, ts, last);
    }
    forall b, ts | b in UpTo(pending, hi) && InCalendar(cfg, ts) && ts <= b
      ensures ts in Known(d) || ts in UpTo(pending, hi)
    {
      assert b in pending;
    }
  }

  lemma DuePrefixKnown(cfg: Config, d: Disk, now: int, ts: int, p: int)
    requires Sound(cfg, d) && Covered(cfg, d) && ts in Due(cfg, now) && p in StreamLabels(d) && ts <= p
    ensures ts in Known(d)
  {
    DayMonotone(ts, p);
    DueDaysExact(cfg, cfg.start, Day(now), now, ts);
  }

  /** The prefix check never fails, whatever the clock does. */
  lemma PrefixNeverMissing(cfg: Config, d: Disk, mem: Memory, now: int, steady: bool)
    requires Sound(cfg, d) && Covered(cfg, d) && Mirrors(cfg, d, mem)
    ensures PlanFetch(cfg, mem, now, steady) != Refuse(PrefixMissing)
  {
    var due, published, known := Due(cfg, now), mem.published.Keys, mem.published.Keys + mem.gaps.Keys;
    assert published == StreamLabels(d) && known == Known(d);
    forall ts, p | ts in due && p in published && ts <= p ensures ts in known {
      DuePrefixKnown(cfg, d, now, ts, p);
    }
    assert PrefixComplete(published, known, due);
  }

  /** The label check fails exactly when the clock shows a time before some known label could be due. */
  lemma UnexpectedExactly(cfg: Config, d: Disk, mem: Memory, now: int)
    requires Sound(cfg, d) && Mirrors(cfg, d, mem) && Day(now) - cfg.start <= LIFETIME
    ensures PlanFetch(cfg, mem, now, true) == Refuse(UnexpectedLabel) <==>
            exists ts :: ts in Known(d) && now < ts + TF + GRACE
  {
    var known := mem.published.Keys + mem.gaps.Keys;
    assert known == Known(d);
    forall ts | ts in known ensures ts in Due(cfg, now) <==> ts + TF + GRACE <= now {
      assert InCalendar(cfg, ts);
      DueExact(cfg, now);
    }
  }

  // ---- Harvesting ----

  ghost function ProofLabels(proofs: seq<(Row, Proof)>): seq<int> {
    seq(|proofs|, i requires 0 <= i < |proofs| => proofs[i].0.time)
  }

  ghost function AbsentLabels(absent: seq<Gap>): seq<int> {
    seq(|absent|, i requires 0 <= i < |absent| => absent[i].ts)
  }

  predicate GoodProof(cfg: Config, row: Row, proof: Proof) {
    && Proven(cfg, row, proof) && proof.origin == OriginOf(cfg, row.time)
    && (proof.origin == Live ==> Day(proof.confirmed) == Day(row.time))
  }

  ghost predicate Resolved(h: Harvest, ts: int) { ts in ProofLabels(h.proofs) || ts in AbsentLabels(h.absent) }

  /** A batch harvested so far: proofs and absences in label order, each label resolved at most once, and the
      count reaching the batch length exactly when every label of the batch is resolved. */
  ghost predicate GoodHarvest(cfg: Config, batch: seq<int>, h: Harvest) {
    && GoodProofs(cfg, batch, h) && GoodAbsences(cfg, batch, h) && Tally(batch, h)
  }

  ghost predicate GoodProofs(cfg: Config, batch: seq<int>, h: Harvest) {
    && Strict(ProofLabels(h.proofs))
    && (forall i :: 0 <= i < |h.proofs| ==>
          GoodProof(cfg, h.proofs[i].0, h.proofs[i].1) && h.proofs[i].0.time in batch
              && h.proofs[i].0.time in h.candidates)
    && (forall ts :: ts in h.candidates ==> h.candidates[ts].first >= ts + TF + GRACE)
  }

  ghost predicate GoodAbsences(cfg: Config, batch: seq<int>, h: Harvest) {
    && Strict(AbsentLabels(h.absent))
    && (forall i :: 0 <= i < |h.absent| ==>
          GoodGap(cfg, h.absent[i]) && h.absent[i].ts in batch && h.absent[i].ts !in ProofLabels(h.proofs))
  }

  ghost predicate Tally(batch: seq<int>, h: Harvest) {
    && |h.proofs| + |h.absent| <= |batch|
    && (|h.proofs| + |h.absent| == |batch| <==> forall ts :: ts in batch ==> Resolved(h, ts))
    && (h.progress != Going ==> |h.proofs| + |h.absent| < |batch|)
  }

  ghost predicate ValidRows(rows: map<int, Row>) {
    forall ts :: ts in rows ==> rows[ts].time == ts && ValidRow(rows[ts])
  }

  lemma {:induction false} ParsedRowsValid(body: seq<Raw>, lo: int, hi: int)
    ensures ParsePrefix(body, lo, hi).Ok? ==>
              ValidRows(ParsePrefix(body, lo, hi).value) &&
              forall ts :: ts in ParsePrefix(body, lo, hi).value ==> lo <= ts <= hi
  {
    if body != [] { ParsedRowsValid(body[..|body| - 1], lo, hi); }
  }

  lemma TallyUp(done: seq<int>, ts: int, h: Harvest, h': Harvest)
    requires Tally(done, h) && h.progress == Going && ts !in done
    requires forall b :: b in done ==> (Resolved(h', b) <==> Resolved(h, b))
    requires h'.progress == Going || !Resolved(h', ts)
    requires |h'.proofs| + |h'.absent| == |h.proofs| + |h.absent| + if Resolved(h', ts) then 1 else 0
    ensures Tally(done + [ts], h')
  {
    assert ts in done + [ts];
    assert forall b :: b in done + [ts] <==> b in done || b == ts;
  }

  lemma LabelsWithin(cfg: Config, batch: seq<int>, h: Harvest)
    requires GoodProofs(cfg, batch, h) && GoodAbsences(cfg, batch, h)
    ensures forall x :: x in ProofLabels(h.proofs) ==> x in batch
    ensures forall x :: x in AbsentLabels(h.absent) ==> x in batch
  {
  }

  lemma HarvestProof(cfg: Config, done: seq<int>, ts: int, h: Harvest, h': Harvest)
    requires GoodHarvest(cfg, done, h) && h.progress == Going && forall b :: b in done ==> b < ts
    requires |h'.proofs| == |h.proofs| + 1 && h'.proofs[..|h.proofs|] == h.proofs
    requires var (row, proof) := h'.proofs[|h.proofs|]; GoodProof(cfg, row, proof) && row.time == ts
    requires h'.absent == h.absent && h'.candidates == h.candidates && h'.progress == Going && ts in h.candidates
    ensures GoodHarvest(cfg, done + [ts], h')
  {
    LabelsWithin(cfg, done, h);
    assert ProofLabels(h'.proofs) == ProofLabels(h.proofs) + [ts];
    Append(ProofLabels(h.proofs), ts);
    assert forall i :: 0 <= i < |h.proofs| ==> h'.proofs[i] == h.proofs[i];
    forall b | b in done ensures Resolved(h', b) <==> Resolved(h, b) {}
    assert Resolved(h', ts) by { assert ProofLabels(h'.proofs)[|h.proofs|] == ts; }
    TallyUp(done, ts, h, h');
  }

  lemma HarvestAbsence(cfg: Config, done: seq<int>, gap: Gap, h: Harvest, h': Harvest)
    requires GoodHarvest(cfg, done, h) && h.progress == Going && forall b :: b in done ==> b < gap.ts
    requires GoodGap(cfg, gap) && h'.absent == h.absent + [gap]
    requires h'.proofs == h.proofs && h'.candidates == h.candidates && h'.progress == Going
    ensures GoodHarvest(cfg, done + [gap.ts], h')
  {
    LabelsWithin(cfg, done, h);
    assert AbsentLabels(h'.absent) == AbsentLabels(h.absent) + [gap.ts];
    Append(AbsentLabels(h.absent), gap.ts);
    forall b | b in done ensures Resolved(h', b) <==> Resolved(h, b) {}
    assert Resolved(h', gap.ts) by { assert AbsentLabels(h'.absent)[|h.absent|] == gap.ts; }
    TallyUp(done, gap.ts, h, h');
  }

  lemma HarvestNothing(cfg: Config, done: seq<int>, ts: int, h: Harvest, h': Harvest)
    requires GoodHarvest(cfg, done, h) && h.progress == Going && ts !in done
    requires h'.absent == h.absent && h'.proofs == h.proofs && h.candidates.Keys <= h'.candidates.Keys
    requires forall b :: b in h'.candidates ==> h'.candidates[b].first >= b + TF + GRACE
    ensures GoodHarvest(cfg, done + [ts], h')
  {
    LabelsWithin(cfg, done, h);
    TallyUp(done, ts, h, h');
  }

  lemma HarvestOneGood(cfg: Config, rows: map<int, Row>, observed: int, done: seq<int>, ts: int, h: Harvest)
    requires ValidRows(rows) && GoodHarvest(cfg, done, h) && h.progress == Going
    requires InCalendar(cfg, ts) && forall b :: b in done ==> b < ts
    ensures GoodHarvest(cfg, done + [ts], HarvestOne(cfg, rows, observed, ts, h))
  {
    var h' := HarvestOne(cfg, rows, observed, ts, h);
    if |h'.proofs| > |h.proofs| {
      HarvestProof(cfg, done, ts, h, h');
    } else if |h'.absent| > |h.absent| {
      HarvestAbsence(cfg, done, h'.absent[|h.absent|], h, h');
    } else {
      HarvestNothing(cfg, done, ts, h, h');
    }
  }

  lemma {:induction false} HarvestGood(cfg: Config, rows: map<int, Row>, observed: int, batch: seq<int>, h: Harvest)
    requires ValidRows(rows) && Strict(batch) && GoodHarvest(cfg, [], h) && h.progress == Going
    requires forall ts :: ts in batch ==> InCalendar(cfg, ts)
    ensures GoodHarvest(cfg, batch, HarvestAll(cfg, rows, observed, batch, h))
  {
    if batch != [] {
      var done, ts := batch[..|batch| - 1], batch[|batch| - 1];
      LastIsGreatest(batch);
      assert batch == done + [ts];
      HarvestGood(cfg, rows, observed, done, h);
      var before := HarvestAll(cfg, rows, observed, done, h);
      assert ts in batch;
      if before.progress == Going {
        HarvestOneGood(cfg, rows, observed, done, ts, before);
      } else {
        var b :| b in done && !Resolved(before, b);
        assert b in batch;
      }
    }
  }

  // ---- Sizes ----

  lemma {:induction false} FewElements(labels: set<int>, s: seq<int>)
    requires forall x :: x in labels ==> x in s
    ensures |labels| <= |s|
  {
    if s == [] {
      assert forall x :: x !in labels;
    } else {
      var last := s[|s| - 1];
      forall x | x in labels - {last} ensures x in s[..|s| - 1] {}
      FewElements(labels - {last}, s[..|s| - 1]);
    }
  }

  lemma InAllDays(cfg: Config, ts: int)
    requires InCalendar(cfg, ts)
    ensures ts in DueDays(cfg, cfg.start, cfg.start + LIFETIME, At(cfg.start + LIFETIME + 2, 0))
  {
    hide DueDays;
    SlotsExact(cfg, Day(ts), ts);
    DueDaysExact(cfg, cfg.start, cfg.start + LIFETIME, At(cfg.start + LIFETIME + 2, 0), ts);
  }

  lemma CalendarSize(cfg: Config, labels: set<int>)
    requires forall ts :: ts in labels ==> InCalendar(cfg, ts)
    ensures |labels| <= 4141
  {
    var end := At(cfg.start + LIFETIME + 2, 0);
    var all := DueDays(cfg, cfg.start, cfg.start + LIFETIME, end);
    hide DueDays, InCalendar, At;
    forall ts | ts in labels ensures ts in all { InAllDays(cfg, ts); }
    DueDaysStrict(cfg, cfg.start, cfg.start + LIFETIME, end);
    FewElements(labels, all);
  }

  lemma StreamCount(d: Disk)
    requires forall i, j :: 0 <= i < j < |d.stream| ==> d.stream[i].env.time < d.stream[j].env.time
    ensures |StreamLabels(d)| == |d.stream|
  {
    var labels := seq(|d.stream|, i requires 0 <= i < |d.stream| => d.stream[i].env.time);
    DistinctExact(labels);
    assert Members(labels) == StreamLabels(d) by {
      forall ts | ts in StreamLabels(d) ensures ts in labels {
        var i :| 0 <= i < |d.stream| && d.stream[i].env.time == ts;
        assert labels[i] == ts;
      }
    }
  }

  /** The labels of the context-only days from `first` to `last`. */
  function ContextLabels(cfg: Config, first: int, last: int): seq<int>
    decreases last - first
  {
    if first > last then []
    else (if ContextOnly(cfg, first) then Slots(cfg, first) else []) + ContextLabels(cfg, first + 1, last)
  }

  lemma {:induction false} ContextLabelsExact(cfg: Config, first: int, last: int, ts: int)
    ensures ts in ContextLabels(cfg, first, last) <==>
      first <= Day(ts) <= last && ContextOnly(cfg, Day(ts)) && IsSlot(cfg, ts)
    ensures |ContextLabels(cfg, first, last)| <= if first <= last then 55 * (last - first + 1) else 0
    decreases last - first
  {
    if first <= last {
      SlotsExact(cfg, first, ts);
      ContextLabelsExact(cfg, first + 1, last, ts);
    }
  }

  /** Absences lie on context-only days: at most fifty-five labels on each of forty-one. */
  lemma GapsSize(cfg: Config, d: Disk)
    requires Sound(cfg, d)
    ensures |GapLabels(d)| <= 2255
  {
    var first, last := cfg.start, cfg.start + LIFETIME;
    forall ts | ts in GapLabels(d) ensures ts in ContextLabels(cfg, first, last) {
      ContextLabelsExact(cfg, first, last, ts);
    }
    ContextLabelsExact(cfg, first, last, 0);
    FewElements(GapLabels(d), ContextLabels(cfg, first, last));
  }

  lemma {:induction false} GapCount(d: Disk)
    requires forall i, j :: 0 <= i < j < |d.gaps| ==> d.gaps[i].ts != d.gaps[j].ts
    ensures |GapLabels(d)| == |d.gaps|
    decreases |d.gaps|
  {
    if d.gaps != [] {
      var n := |d.gaps| - 1;
      var d' := d.(gaps := d.gaps[..n]);
      GapCount(d');
      GapLabelsSnoc(d', d.gaps[n]);
      assert d'.gaps + [d.gaps[n]] == d.gaps;
      assert d.gaps[n].ts !in GapLabels(d');
    }
  }

  /** The row and gap budgets are out of reach: at most 101 rows and, on context-only days, 55 gaps on each of
      forty-one days. */
  lemma WithinBudget(cfg: Config, d: Disk)
    requires Sound(cfg, d)
    ensures |d.stream| <= 4141 && |d.gaps| == |GapLabels(d)| <= 2255 && 4141 < MAX_ROWS
  {
    StreamCount(d);
    CalendarSize(cfg, StreamLabels(d));
    GapCount(d);
    GapsSize(cfg, d);
  }

  // ---- Appending ----

  ghost predicate Consistent(cfg: Config, w: Writer) {
    Sound(cfg, w.disk) && Covered(cfg, w.disk) && Mirrors(cfg, w.disk, w.mem) && !w.fate.Stopped?
  }

  lemma GapLabelsSnoc(d: Disk, gap: Gap)
    ensures var d' := d.(gaps := d.gaps + [gap]);
            StreamLabels(d') == StreamLabels(d) && GapLabels(d') == GapLabels(d) + {gap.ts}
  {
    var d' := d.(gaps := d.gaps + [gap]);
    assert d'.gaps[|d.gaps|] == gap && forall i :: 0 <= i < |d.gaps| ==> d'.gaps[i] == d.gaps[i];
  }

  lemma StreamLabelsSnoc(d: Disk, e: Entry)
    ensures var d' := d.(stream := d.stream + [e]);
            StreamLabels(d') == StreamLabels(d) + {e.env.time} && GapLabels(d') == GapLabels(d)
  {
    var d' := d.(stream := d.stream + [e]);
    assert d'.stream[|d.stream|] == e && forall i :: 0 <= i < |d.stream| ==> d'.stream[i] == d.stream[i];
  }

  lemma SoundGap(cfg: Config, d: Disk, gap: Gap)
    requires Sound(cfg, d) && Covered(cfg, d) && GoodGap(cfg, gap) && gap.ts !in Known(d)
    ensures var d' := d.(gaps := d.gaps + [gap]); Sound(cfg, d') && Covered(cfg, d')
  {
    GapLabelsSnoc(d, gap);
    forall i | 0 <= i < |d.gaps| ensures d.gaps[i].ts != gap.ts {
      assert d.gaps[i].ts in GapLabels(d);
    }
  }

  lemma SoundRow(cfg: Config, d: Disk, row: Row, proof: Proof)
    requires Sound(cfg, d) && Covered(cfg, d) && Extends(cfg, d, row, proof)
    ensures var e := EnvelopeOf(cfg, row, proof);
            var d' := d.(stream := d.stream + [e]);
            StoredRow(cfg, e) == Ok(row) && Sound(cfg, d') && Covered(cfg, d')
  {
    hide StoredRow, ContextGap, InCalendar;
    var e := EnvelopeOf(cfg, row, proof);
    StoredRowExact(cfg, e, row);
    StreamLabelsSnoc(d, e);
    forall i | 0 <= i < |d.stream| ensures d.stream[i].env.time < row.time {
      assert d.stream[i].env.time in StreamLabels(d);
    }
  }

  /** The row that may be appended next: newer than every published one, with nothing missing before it. */
  ghost predicate Extends(cfg: Config, d: Disk, row: Row, proof: Proof) {
    && GoodProof(cfg, row, proof) && InCalendar(cfg, row.time) && row.time !in GapLabels(d)
    && (forall p :: p in StreamLabels(d) ==> p < row.time)
    && (forall ts :: InCalendar(cfg, ts) && ts < row.time ==> ts in Known(d))
  }

  lemma MirrorsGap(cfg: Config, d: Disk, mem: Memory, gap: Gap)
    requires Mirrors(cfg, d, mem)
    ensures Mirrors(cfg, d.(gaps := d.gaps + [gap]), mem.(gaps := mem.gaps[gap.ts := gap]))
  {
    GapLabelsSnoc(d, gap);
  }

  lemma MirrorsRow(cfg: Config, d: Disk, mem: Memory, row: Row, proof: Proof)
    requires Mirrors(cfg, d, mem) && row.time !in StreamLabels(d)
    requires StoredRow(cfg, EnvelopeOf(cfg, row, proof)) == Ok(row)
    ensures Mirrors(cfg, d.(stream := d.stream + [EnvelopeOf(cfg, row, proof)]),
                    mem.(published := mem.published[row.time := row], count := mem.count + 1,
                         candidates := mem.candidates - {row.time}))
  {
    StreamLabelsSnoc(d, EnvelopeOf(cfg, row, proof));
    assert forall i :: 0 <= i < |d.stream| ==> d.stream[i].env.time in StreamLabels(d);
  }

  lemma OneGap(cfg: Config, w: Writer, gap: Gap)
    requires Consistent(cfg, w)
    requires w.fate == Writing ==> GoodGap(cfg, gap) && gap.ts !in Known(w.disk)
    ensures var w' := AppendGap(w, gap);
            && Consistent(cfg, w')
            && (w'.fate == Writing ==> w.fate == Writing && w'.disk == w.disk.(gaps := w.disk.gaps + [gap])
                                       && w'.mem.candidates == w.mem.candidates)
            && w'.disk.failed == w.disk.failed
  {
    WithinBudget(cfg, w.disk);
    if w.fate == Writing && w.budget != 0 {
      SoundGap(cfg, w.disk, gap);
      MirrorsGap(cfg, w.disk, w.mem, gap);
    }
  }

  lemma OneRow(cfg: Config, w: Writer, row: Row, proof: Proof)
    requires Consistent(cfg, w)
    requires w.fate == Writing ==> Extends(cfg, w.disk, row, proof)
    ensures var w' := AppendRow(cfg, w, row, proof);
            && Consistent(cfg, w')
            && (w'.fate == Writing ==> w.fate == Writing
                                       && w'.disk == w.disk.(stream := w.disk.stream + [EnvelopeOf(cfg, row, proof)]))
            && w'.disk.failed == w.disk.failed
  {
    var d, mem, e := w.disk, w.mem, EnvelopeOf(cfg, row, proof);
    assert mem.count < MAX_ROWS by { WithinBudget(cfg, d); }
    if w.fate == Writing && w.budget != 0 {
      var d' := d.(stream := d.stream + [e]);
      var mem' := mem.(published := mem.published[row.time := row], count := mem.count + 1,
                       candidates := mem.candidates - {row.time});
      assert AppendRow(cfg, w, row, proof) == Writer(d', mem', w.budget - 1, Writing) by {
        TopIsOlder(cfg, d, row, proof);
      }
      assert Sound(cfg, d') && Covered(cfg, d') by { SoundRow(cfg, d, row, proof); }
      assert Mirrors(cfg, d', mem') by {
        SoundRow(cfg, d, row, proof);
        MirrorsRow(cfg, d, mem, row, proof);
      }
    }
  }

  lemma TopIsOlder(cfg: Config, d: Disk, row: Row, proof: Proof)
    requires Sound(cfg, d) && Extends(cfg, d, row, proof)
    ensures d.stream != [] ==> d.stream[|d.stream| - 1].id < EnvelopeOf(cfg, row, proof).id
  {
    if d.stream != [] {
      var top := d.stream[|d.stream| - 1];
      StoredRowExact(cfg, top, StoredRow(cfg, top).value);
      assert top.env.time in StreamLabels(d);
    }
  }

  lemma {:induction false} GapsKeep(cfg: Config, w: Writer, absent: seq<Gap>)
    requires Consistent(cfg, w)
    requires w.fate == Writing ==>
               && Strict(AbsentLabels(absent))
               && forall i :: 0 <= i < |absent| ==> GoodGap(cfg, absent[i]) && absent[i].ts !in Known(w.disk)
    ensures var w' := AppendGaps(w, absent);
            && Consistent(cfg, w')
            && (w'.fate == Writing ==> w.fate == Writing && w'.disk == w.disk.(gaps := w.disk.gaps + absent)
                                       && w'.mem.candidates == w.mem.candidates)
            && w'.disk.failed == w.disk.failed
  {
    if absent != [] {
      var n := |absent| - 1;
      var init := absent[..n];
      assert absent == init + [absent[n]];
      assert w.fate == Writing ==> Strict(AbsentLabels(init)) by {
        if w.fate == Writing { assert AbsentLabels(init) == AbsentLabels(absent)[..n]; }
      }
      GapsKeep(cfg, w, init);
      var w1 := AppendGaps(w, init);
      if w1.fate == Writing {
        AppendedGapLabels(w.disk, init);
        assert absent[n].ts !in AbsentLabels(init) by {
          assert forall i :: 0 <= i < n ==> AbsentLabels(absent)[i] < AbsentLabels(absent)[n];
        }
      }
      OneGap(cfg, w1, absent[n]);
    } else {
      assert w.disk.gaps + absent == w.disk.gaps;
    }
  }

  lemma AppendedGapLabels(d: Disk, absent: seq<Gap>)
    ensures var d' := d.(gaps := d.gaps + absent);
            StreamLabels(d') == StreamLabels(d) &&
            forall ts :: ts in GapLabels(d') <==> ts in GapLabels(d) || ts in AbsentLabels(absent)
  {
    var d' := d.(gaps := d.gaps + absent);
    assert forall i :: 0 <= i < |d.gaps| ==> d'.gaps[i] == d.gaps[i];
    assert forall i :: 0 <= i < |absent| ==>
      d'.gaps[|d.gaps| + i] == absent[i] && AbsentLabels(absent)[i] == absent[i].ts;
    forall ts | ts in AbsentLabels(absent) ensures ts in GapLabels(d') {
      var i :| 0 <= i < |absent| && AbsentLabels(absent)[i] == ts;
      assert d'.gaps[|d.gaps| + i].ts == ts;
    }
  }

  ghost function Entries(cfg: Config, proofs: seq<(Row, Proof)>): seq<Entry> {
    seq(|proofs|, i requires 0 <= i < |proofs| => EnvelopeOf(cfg, proofs[i].0, proofs[i].1))
  }

  lemma AppendedRowLabels(cfg: Config, d: Disk, proofs: seq<(Row, Proof)>)
    ensures var d' := d.(stream := d.stream + Entries(cfg, proofs));
            GapLabels(d') == GapLabels(d) &&
            forall ts :: ts in StreamLabels(d') <==> ts in StreamLabels(d) || ts in ProofLabels(proofs)
  {
    EntryTimes(cfg, proofs);
    hide EnvelopeOf, Entries;
    var es, n := Entries(cfg, proofs), |d.stream|;
    var d' := d.(stream := d.stream + es);
    forall ts | ts in StreamLabels(d') ensures ts in StreamLabels(d) || ts in ProofLabels(proofs) {
      var i :| 0 <= i < |d'.stream| && d'.stream[i].env.time == ts;
      if i < n { assert d.stream[i].env.time == ts; } else { assert ProofLabels(proofs)[i - n] == ts; }
    }
    forall ts | ts in StreamLabels(d) ensures ts in StreamLabels(d') {
      var i :| 0 <= i < n && d.stream[i].env.time == ts;
      assert d'.stream[i].env.time == ts;
    }
    forall ts | ts in ProofLabels(proofs) ensures ts in StreamLabels(d') {
      var i :| 0 <= i < |proofs| && ProofLabels(proofs)[i] == ts;
      assert d'.stream[n + i] == es[i];
    }
  }

  lemma EntryTimes(cfg: Config, proofs: seq<(Row, Proof)>)
    ensures |Entries(cfg, proofs)| == |proofs|
    ensures forall i :: 0 <= i < |proofs| ==>
      Entries(cfg, proofs)[i].env.time == proofs[i].0.time && ProofLabels(proofs)[i] == proofs[i].0.time
  {
  }

  ghost predicate Newer(cfg: Config, d: Disk, row: Row, proof: Proof) {
    && GoodProof(cfg, row, proof) && InCalendar(cfg, row.time) && row.time !in GapLabels(d)
    && (forall p :: p in StreamLabels(d) ==> p < row.time)
  }

  ghost predicate NoHole(cfg: Config, d: Disk, labels: seq<int>, bound: int) {
    forall ts :: InCalendar(cfg, ts) && ts < bound ==> ts in Known(d) || ts in labels
  }

  /** Proven rows in label order that follow the stream, with every earlier calendar label known or in the queue. */
  ghost predicate Queue(cfg: Config, d: Disk, proofs: seq<(Row, Proof)>) {
    && Strict(ProofLabels(proofs))
    && (forall i :: 0 <= i < |proofs| ==> Newer(cfg, d, proofs[i].0, proofs[i].1))
    && (forall i :: 0 <= i < |proofs| ==> NoHole(cfg, d, ProofLabels(proofs), proofs[i].0.time))
  }

  lemma EarlierLabels(proofs: seq<(Row, Proof)>, n: nat, i: nat, ts: int)
    requires i <= n <= |proofs| && i < |proofs| && Strict(ProofLabels(proofs))
    requires ts in ProofLabels(proofs) && ts < proofs[i].0.time
    ensures ts in ProofLabels(proofs[..n])
  {
    var j :| 0 <= j < |proofs| && ProofLabels(proofs)[j] == ts;
    assert ProofLabels(proofs)[i] == proofs[i].0.time;
    assert j < i;
    assert ProofLabels(proofs[..n])[j] == ts;
  }

  lemma QueueInit(cfg: Config, d: Disk, proofs: seq<(Row, Proof)>)
    requires proofs != [] && Queue(cfg, d, proofs)
    ensures Queue(cfg, d, proofs[..|proofs| - 1])
  {
    var n := |proofs| - 1;
    assert ProofLabels(proofs[..n]) == ProofLabels(proofs)[..n];
    forall i | 0 <= i < n ensures NoHole(cfg, d, ProofLabels(proofs[..n]), proofs[i].0.time) {
      assert NoHole(cfg, d, ProofLabels(proofs), proofs[i].0.time);
      forall ts | ts in ProofLabels(proofs) && ts < proofs[i].0.time ensures ts in ProofLabels(proofs[..n]) {
        EarlierLabels(proofs, n, i, ts);
      }
    }
  }

  lemma QueueLast(cfg: Config, d: Disk, proofs: seq<(Row, Proof)>)
    requires proofs != [] && Queue(cfg, d, proofs)
    ensures var n := |proofs| - 1;
            Extends(cfg, d.(stream := d.stream + Entries(cfg, proofs[..n])), proofs[n].0, proofs[n].1)
  {
    var n := |proofs| - 1;
    var init, last := proofs[..n], proofs[n].0.time;
    AppendedRowLabels(cfg, d, init);
    assert Newer(cfg, d, proofs[n].0, proofs[n].1) && NoHole(cfg, d, ProofLabels(proofs), last);
    forall p | p in ProofLabels(init) ensures p < last {
      var j :| 0 <= j < n && ProofLabels(init)[j] == p;
      assert ProofLabels(proofs)[j] < ProofLabels(proofs)[n];
    }
    forall ts | ts in ProofLabels(proofs) && ts < last ensures ts in ProofLabels(init) {
      EarlierLabels(proofs, n, n, ts);
    }
  }

  lemma {:induction false} RowsKeep(cfg: Config, w: Writer, proofs: seq<(Row, Proof)>)
    requires Consistent(cfg, w)
    requires w.fate == Writing ==> Queue(cfg, w.disk, proofs)
    ensures var w' := AppendRows(cfg, w, proofs);
            && Consistent(cfg, w')
            && (w'.fate == Writing ==> w.fate == Writing &&
                                       w'.disk == w.disk.(stream := w.disk.stream + Entries(cfg, proofs)))
            && w'.disk.failed == w.disk.failed
  {
    hide Consistent, Queue, Extends, AppendRow, EnvelopeOf;
    if proofs != [] {
      var n := |proofs| - 1;
      if w.fate == Writing { QueueInit(cfg, w.disk, proofs); }
      RowsKeep(cfg, w, proofs[..n]);
      var w1 := AppendRows(cfg, w, proofs[..n]);
      if w1.fate == Writing { QueueLast(cfg, w.disk, proofs); }
      OneRow(cfg, w1, proofs[n].0, proofs[n].1);
      assert Entries(cfg, proofs) == Entries(cfg, proofs[..n]) + [EnvelopeOf(cfg, proofs[n].0, proofs[n].1)];
      assert w.disk.stream + Entries(cfg, proofs) ==
             w.disk.stream + Entries(cfg, proofs[..n]) + [EnvelopeOf(cfg, proofs[n].0, proofs[n].1)];
    } else {
      assert w.disk.stream + Entries(cfg, proofs) == w.disk.stream;
    }
  }

  // ---- One iteration ----

  /** Once every label of the batch is resolved, the proofs may be appended behind the gaps. */
  lemma ResolvedQueue(cfg: Config, d: Disk, pending: seq<int>, lo: int, hi: int, h: Harvest)
    requires Sound(cfg, d) && GoodPlan(cfg, StreamLabels(d), Known(d), pending, lo, hi)
    requires GoodHarvest(cfg, UpTo(pending, hi), h)
    requires forall ts :: ts in UpTo(pending, hi) ==> Resolved(h, ts)
    ensures Queue(cfg, d.(gaps := d.gaps + h.absent), h.proofs)
  {
    hide InCalendar, Sound, GoodGap, Tally, NoHole, StreamLabels, GapLabels;
    AppendedGapLabels(d, h.absent);
    forall p, ts | p in StreamLabels(d) && ts in UpTo(pending, hi) ensures p < ts {
      assert ts in pending && pending[0] <= ts;
    }
    var d' := d.(gaps := d.gaps + h.absent);
    assert forall j :: 0 <= j < |h.absent| ==> AbsentLabels(h.absent)[j] == h.absent[j].ts;
    forall i | 0 <= i < |h.proofs|
      ensures Newer(cfg, d', h.proofs[i].0, h.proofs[i].1)
      ensures NoHole(cfg, d', ProofLabels(h.proofs), h.proofs[i].0.time)
    {
      assert ProofLabels(h.proofs)[i] == h.proofs[i].0.time && h.proofs[i].0.time in UpTo(pending, hi);
      NoHoleBefore(cfg, d, pending, lo, hi, h, h.proofs[i].0.time);
    }
  }

  lemma NoHoleBefore(cfg: Config, d: Disk, pending: seq<int>, lo: int, hi: int, h: Harvest, bound: int)
    requires GoodPlan(cfg, StreamLabels(d), Known(d), pending, lo, hi) && bound in UpTo(pending, hi)
    requires forall ts :: ts in UpTo(pending, hi) ==> Resolved(h, ts)
    ensures NoHole(cfg, d.(gaps := d.gaps + h.absent), ProofLabels(h.proofs), bound)
  {
    hide InCalendar, StreamLabels, GapLabels;
    AppendedGapLabels(d, h.absent);
  }

  lemma CommitKeeps(cfg: Config, d: Disk, mem: Memory, budget: int, pending: seq<int>, lo: int, hi: int, h: Harvest)
    requires Sound(cfg, d) && Covered(cfg, d) && Mirrors(cfg, d, mem)
    requires GoodPlan(cfg, StreamLabels(d), Known(d), pending, lo, hi)
    requires GoodHarvest(cfg, UpTo(pending, hi), h) && |h.proofs| + |h.absent| == |UpTo(pending, hi)|
    ensures var mem' := mem.(absentSince := h.absentSince, candidates := h.candidates);
            var w := AppendRows(cfg, AppendGaps(Writer(d, mem', budget, Writing), h.absent), h.proofs);
            Consistent(cfg, w) && w.disk.failed == d.failed
  {
    var mem' := mem.(absentSince := h.absentSince, candidates := h.candidates);
    var w := Writer(d, mem', budget, Writing);
    forall i | 0 <= i < |h.absent| ensures h.absent[i].ts !in Known(d) {
      assert h.absent[i].ts in UpTo(pending, hi);
    }
    GapsKeep(cfg, w, h.absent);
    ResolvedQueue(cfg, d, pending, lo, hi, h);
    RowsKeep(cfg, AppendGaps(w, h.absent), h.proofs);
  }

  lemma PlannedHarvest(cfg: Config, d: Disk, mem: Memory, pending: seq<int>, lo: int, hi: int, rows: map<int, Row>,
                       observed: int)
    requires Mirrors(cfg, d, mem) && GoodPlan(cfg, StreamLabels(d), Known(d), pending, lo, hi) && ValidRows(rows)
    ensures GoodHarvest(cfg, UpTo(pending, hi),
                        HarvestAll(cfg, rows, observed, UpTo(pending, hi),
                            Harvest(mem.absentSince, mem.candidates, [], [], Going)))
  {
    hide HarvestAll, MirrorsStream, OriginOf;
    UpToStrict(pending, hi);
    HarvestGood(cfg, rows, observed, UpTo(pending, hi), Harvest(mem.absentSince, mem.candidates, [], [], Going));
  }

  lemma AttemptKeeps(cfg: Config, d: Disk, mem: Memory, tick: Tick, pending: seq<int>, lo: int, hi: int)
    requires Sound(cfg, d) && Covered(cfg, d) && Mirrors(cfg, d, mem) && !d.failed
    requires GoodPlan(cfg, StreamLabels(d), Known(d), pending, lo, hi)
    ensures Inv(cfg, Attempt(cfg, d, mem, tick, pending, lo, hi))
  {
    hide GoodPlan, Sound, Covered, HarvestAll, AppendRows, AppendGaps, ValidRows, MirrorsStream, ParsePrefix;
    FailKeeps(cfg, d);
    if tick.reachable && ParseRows(tick.body, lo, hi).Ok? {
      var rows := ParseRows(tick.body, lo, hi).value;
      ParsedRowsValid(tick.body, lo, hi);
      PlannedHarvest(cfg, d, mem, pending, lo, hi, rows, tick.observed);
      var batch := UpTo(pending, hi);
      var h := HarvestAll(cfg, rows, tick.observed, batch, Harvest(mem.absentSince, mem.candidates, [], [], Going));
      if !h.progress.Bad? && |h.proofs| + |h.absent| == |batch| {
        CommitKeeps(cfg, d, mem, tick.budget, pending, lo, hi, h);
        var mem' := mem.(absentSince := h.absentSince, candidates := h.candidates);
        FailKeeps(cfg, AppendRows(cfg, AppendGaps(Writer(d, mem', tick.budget, Writing), h.absent), h.proofs).disk);
      }
    }
  }

  lemma FailKeeps(cfg: Config, d: Disk)
    requires Sound(cfg, d) && Covered(cfg, d)
    ensures Inv(cfg, Fail(d))
  {
    assert StreamLabels(d.(failed := true)) == StreamLabels(d) && GapLabels(d.(failed := true)) == GapLabels(d);
  }
}
