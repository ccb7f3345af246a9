/** Where a death cuts a commit: after exactly as many appends as it leaves time for, absences first. */
module ClosedBarCut {
  import opened Results
  import opened Calendar
  import opened Increasing
  import opened ClosedBars
  import opened ClosedBarLoop
  import opened ClosedBarSafety

  /** How many of `n` appends are made within the budget; a negative one is no limit. */
  function Within(budget: int, n: nat): nat { if 0 <= budget < n then budget else n }

  /** What is left of the budget after `n` appends. */
  function Left(budget: int, n: nat): int { if 0 <= budget < n then 0 else budget - n }

  lemma {:induction false} GapsCut(w: Writer, gaps: seq<Gap>)
    requires w.fate == Writing && !AppendGaps(w, gaps).fate.Stopped?
    ensures var w' := AppendGaps(w, gaps);
            && w'.disk == w.disk.(gaps := w.disk.gaps + gaps[..Within(w.budget, |gaps|)])
            && w'.budget == Left(w.budget, |gaps|) && (w'.fate == Dead <==> 0 <= w.budget < |gaps|)
  {
    if gaps != [] {
      var n := |gaps| - 1;
      var init := gaps[..n];
      GapsCut(w, init);
      if 0 <= w.budget < n {
        assert gaps[..w.budget] == init[..w.budget];
      } else {
        assert init[..n] == init;
        assert w.disk.gaps + init + [gaps[n]] == w.disk.gaps + gaps;
        assert gaps[..n + 1] == gaps;
      }
    } else {
      assert w.disk.gaps + gaps[..0] == w.disk.gaps;
    }
  }

  lemma {:induction false} RowsCut(cfg: Config, w: Writer, proofs: seq<(Row, Proof)>)
    requires w.fate == Writing && !AppendRows(cfg, w, proofs).fate.Stopped?
    ensures var w' := AppendRows(cfg, w, proofs);
            && w'.disk == w.disk.(stream := w.disk.stream + Entries(cfg, proofs)[..Within(w.budget, |proofs|)])
            && w'.budget == Left(w.budget, |proofs|) && (w'.fate == Dead <==> 0 <= w.budget < |proofs|)
  {
    hide EnvelopeOf;
    if proofs != [] {
      var n := |proofs| - 1;
      var init, es := proofs[..n], Entries(cfg, proofs);
      assert !AppendRows(cfg, w, init).fate.Stopped?;
      RowsCut(cfg, w, init);
      assert Entries(cfg, init) == es[..n];
      if 0 <= w.budget < n {
        assert es[..w.budget] == es[..n][..w.budget];
      } else {
        assert es[..n][..n] == es[..n];
        assert w.disk.stream + es[..n] + [es[n]] == w.disk.stream + es;
        assert es[..n + 1] == es;
      }
    } else {
      assert w.disk.stream + Entries(cfg, proofs)[..0] == w.disk.stream;
    }
  }

  lemma {:induction false} DeadStays(cfg: Config, w: Writer, proofs: seq<(Row, Proof)>)
    requires w.fate != Writing
    ensures AppendRows(cfg, w, proofs) == w
  {
    if proofs != [] { DeadStays(cfg, w, proofs[..|proofs| - 1]); }
  }

  lemma CommitCut(cfg: Config, w: Writer, absent: seq<Gap>, proofs: seq<(Row, Proof)>)
    requires w.fate == Writing && !AppendRows(cfg, AppendGaps(w, absent), proofs).fate.Stopped?
    ensures var w', es := AppendRows(cfg, AppendGaps(w, absent), proofs), Entries(cfg, proofs);
            var g := Within(w.budget, |absent|);
            var r := if 0 <= w.budget < |absent| then 0 else Within(w.budget - |absent|, |proofs|);
            && |es| == |proofs|
            && (w.budget >= 0 || g == |absent|)
            && w'.disk.gaps == w.disk.gaps + absent[..g] && w'.disk.failed == w.disk.failed
            && w'.disk.stream == w.disk.stream + es[..if w.budget < 0 then |proofs| else r]
            && (w'.fate == Dead <==> 0 <= w.budget < |absent| + |proofs|)
  {
    hide EnvelopeOf, AppendGap, AppendRow;
    var w1 := AppendGaps(w, absent);
    if w1.fate != Writing { DeadStays(cfg, w1, proofs); }
    GapsCut(w, absent);
    if w1.fate == Writing {
      RowsCut(cfg, w1, proofs);
    } else {
      assert w.disk.stream + Entries(cfg, proofs)[..0] == w.disk.stream;
    }
  }

  /** `cut` is `whole` cut after the first `k` of its appends to the files of `before`, absences before rows. */
  predicate CutAt(before: Disk, whole: Disk, cut: Disk, k: nat)
    requires |before.gaps| <= |whole.gaps| && |before.stream| <= |whole.stream|
  {
    var g, r := |whole.gaps| - |before.gaps|, |whole.stream| - |before.stream|;
    && cut.gaps == whole.gaps[..|before.gaps| + if k < g then k else g]
    && cut.stream == whole.stream[..|before.stream| + if k < g then 0 else if k < g + r then k - g else r]
  }

  /** For every reachable state, whatever the response: what an iteration leaves that dies at its append `k` is what it
      would have left alive, cut after `k` appends, absences before rows; it dies exactly if there were more. */
  lemma CutExactly(cfg: Config, s: State, tick: Tick, k: nat)
    requires Inv(cfg, s) && s.proc.Up?
    ensures var whole, cut := Iterate(cfg, s, tick.(budget := -1)), Iterate(cfg, s, tick.(budget := k));
            && s.disk.gaps <= whole.disk.gaps && s.disk.stream <= whole.disk.stream
            && CutAt(s.disk, whole.disk, cut.disk, k)
            && var appends := |whole.disk.gaps| - |s.disk.gaps| + |whole.disk.stream| - |s.disk.stream|;
            && (k < appends ==> cut.proc.Down? && (cut.disk.failed <==> tick.raised))
            && (k >= appends ==> cut.disk.failed == whole.disk.failed && (cut.proc.Up? <==> whole.proc.Up?))
  {
    hide Sound, Covered, Mirrors, GoodPlan, Attempt, CutAt, PlanFetch;
    var plan := PlanFetch(cfg, s.proc.mem, tick.now, tick.steady);
    SameCut(s.disk, s.disk, k);
    SameCut(s.disk, s.disk.(failed := true), k);
    if plan.Fetch? {
      PlanIsGood(cfg, s.disk, s.proc.mem, tick.now, tick.steady);
      AttemptCut(cfg, s.disk, s.proc.mem, tick, k, plan.pending, plan.lo, plan.hi);
    }
  }

  lemma SameCut(before: Disk, whole: Disk, k: nat)
    requires whole.gaps == before.gaps && whole.stream == before.stream
    ensures CutAt(before, whole, whole, k)
  {
  }

  lemma AttemptCut(cfg: Config, d: Disk, mem: Memory, tick: Tick, k: nat, pending: seq<int>, lo: int, hi: int)
    requires Sound(cfg, d) && Covered(cfg, d) && Mirrors(cfg, d, mem) && !d.failed
    requires GoodPlan(cfg, StreamLabels(d), Known(d), pending, lo, hi)
    ensures var whole := Attempt(cfg, d, mem, tick.(budget := -1), pending, lo, hi);
            var cut := Attempt(cfg, d, mem, tick.(budget := k), pending, lo, hi);
            && d.gaps <= whole.disk.gaps && d.stream <= whole.disk.stream
            && CutAt(d, whole.disk, cut.disk, k)
            && var appends := |whole.disk.gaps| - |d.gaps| + |whole.disk.stream| - |d.stream|;
            && (k < appends ==> cut.proc.Down? && (cut.disk.failed <==> tick.raised))
            && (k >= appends ==> cut.disk.failed == whole.disk.failed && (cut.proc.Up? <==> whole.proc.Up?))
  {
    hide Sound, Covered, Mirrors, GoodPlan, ParseRows, HarvestAll, AppendRows, AppendGaps, GoodHarvest, CutAt;
    hide Unrevised, StillAbsent, EnvelopeOf;
    SameCut(d, d, k);
    SameCut(d, d.(failed := true), k);
    if tick.reachable && ParseRows(tick.body, lo, hi).Ok? {
      var rows, batch := ParseRows(tick.body, lo, hi).value, UpTo(pending, hi);
      var h := HarvestAll(cfg, rows, tick.observed, batch, Harvest(mem.absentSince, mem.candidates, [], [], Going));
      HarvestIsGood(cfg, d, mem, tick, pending, lo, hi);
      if !h.progress.Bad? && |h.proofs| + |h.absent| == |batch| {
        var mem' := mem.(absentSince := h.absentSince, candidates := h.candidates);
        CutCommit(cfg, d, mem, -1, pending, lo, hi, h);
        CutCommit(cfg, d, mem, k, pending, lo, hi, h);
        var whole := AppendRows(cfg, AppendGaps(Writer(d, mem', -1, Writing), h.absent), h.proofs);
        var cut := AppendRows(cfg, AppendGaps(Writer(d, mem', k, Writing), h.absent), h.proofs);
        assert h.absent[..|h.absent|] == h.absent && Entries(cfg, h.proofs)[..|h.proofs|] == Entries(cfg, h.proofs);
        BothCut(d, h.absent, Entries(cfg, h.proofs), k, whole.disk, cut.disk.(failed := tick.raised));
        BothCut(d, h.absent, Entries(cfg, h.proofs), k, whole.disk, cut.disk);
      }
    }
  }

  lemma HarvestIsGood(cfg: Config, d: Disk, mem: Memory, tick: Tick, pending: seq<int>, lo: int, hi: int)
    requires Mirrors(cfg, d, mem) && GoodPlan(cfg, StreamLabels(d), Known(d), pending, lo, hi)
    requires ParseRows(tick.body, lo, hi).Ok?
    ensures GoodHarvest(cfg, UpTo(pending, hi),
                        HarvestAll(cfg, ParseRows(tick.body, lo, hi).value, tick.observed, UpTo(pending, hi),
                            Harvest(mem.absentSince, mem.candidates, [], [], Going)))
  {
    hide Mirrors, GoodPlan, HarvestAll, GoodHarvest, ValidRows, ParsePrefix;
    ParsedRowsValid(tick.body, lo, hi);
    PlannedHarvest(cfg, d, mem, pending, lo, hi, ParseRows(tick.body, lo, hi).value, tick.observed);
  }

  lemma BothCut(d: Disk, absent: seq<Gap>, es: seq<Entry>, k: nat, whole: Disk, cut: Disk)
    requires whole.gaps == d.gaps + absent && whole.stream == d.stream + es
    requires cut.gaps == d.gaps + absent[..Within(k, |absent|)]
    requires cut.stream == d.stream + es[..if k < |absent| then 0 else Within(k - |absent|, |es|)]
    ensures CutAt(d, whole, cut, k)
  {
  }

  lemma CutCommit(cfg: Config, d: Disk, mem: Memory, budget: int, pending: seq<int>, lo: int, hi: int, h: Harvest)
    requires Sound(cfg, d) && Covered(cfg, d) && Mirrors(cfg, d, mem)
    requires GoodPlan(cfg, StreamLabels(d), Known(d), pending, lo, hi)
    requires GoodHarvest(cfg, UpTo(pending, hi), h) && |h.proofs| + |h.absent| == |UpTo(pending, hi)|
    ensures var mem' := mem.(absentSince := h.absentSince, candidates := h.candidates);
            var w := AppendRows(cfg, AppendGaps(Writer(d, mem', budget, Writing), h.absent), h.proofs);
            var g, es := Within(budget, |h.absent|), Entries(cfg, h.proofs);
            var r := if 0 <= budget < |h.absent| then 0 else Within(budget - |h.absent|, |h.proofs|);
            && |es| == |h.proofs| && !w.fate.Stopped? && w.disk.failed == d.failed
            && w.disk.gaps == d.gaps + h.absent[..g]
            && w.disk.stream == d.stream + es[..if budget < 0 then |h.proofs| else r]
            && (w.fate == Dead <==> 0 <= budget < |h.absent| + |h.proofs|)
  {
    hide Sound, Covered, Mirrors, GoodPlan, GoodHarvest, AppendRows, AppendGaps, Within;
    CommitKeeps(cfg, d, mem, budget, pending, lo, hi, h);
    var mem' := mem.(absentSince := h.absentSince, candidates := h.candidates);
    CommitCut(cfg, Writer(d, mem', budget, Writing), h.absent, h.proofs);
  }
}
