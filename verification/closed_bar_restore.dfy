/** What a restart accepts, for any contents of the two files, and where a death may cut a commit. */
module ClosedBarRestore {
  import opened Results
  import opened Calendar
  import opened Increasing
  import opened ClosedBars
  import opened ClosedBarLoop

  // ---- The stream ----

  /** The entry is the envelope of some proven row. */
  ghost predicate Readable(cfg: Config, e: Entry) {
    exists row :: Proven(cfg, row, e.env.proof) && e == EnvelopeOf(cfg, row, e.env.proof)
  }

  lemma ReadableExact(cfg: Config, e: Entry)
    ensures StoredRow(cfg, e).Ok? <==> Readable(cfg, e)
    ensures StoredRow(cfg, e).Ok? ==> e == EnvelopeOf(cfg, StoredRow(cfg, e).value, e.env.proof)
  {
    hide EnvelopeOf, Proven, StoredRow;
    if StoredRow(cfg, e).Ok? { StoredRowExact(cfg, e, StoredRow(cfg, e).value); }
    if Readable(cfg, e) {
      var row :| Proven(cfg, row, e.env.proof) && e == EnvelopeOf(cfg, row, e.env.proof);
      StoredRowExact(cfg, e, row);
    }
  }

  function EntryTimes(stream: seq<Entry>): (times: seq<int>)
    ensures |times| == |stream| && forall i :: 0 <= i < |stream| ==> times[i] == stream[i].env.time
  {
    seq(|stream|, i requires 0 <= i < |stream| => stream[i].env.time)
  }

  function GapTimes(lines: seq<Gap>): (times: seq<int>)
    ensures |times| == |lines| && forall i :: 0 <= i < |lines| ==> times[i] == lines[i].ts
  {
    seq(|lines|, i requires 0 <= i < |lines| => lines[i].ts)
  }

  /** Each row read is the one some entry was written for. */
  ghost predicate RowsOfStream(cfg: Config, stream: seq<Entry>, rows: map<int, Row>) {
    && rows.Keys == Members(EntryTimes(stream))
    && forall ts :: ts in rows ==> exists i :: 0 <= i < |stream| && Wrote(cfg, stream[i], ts, rows[ts])
  }

  ghost predicate Wrote(cfg: Config, e: Entry, ts: int, row: Row) {
    row.time == ts && e == EnvelopeOf(cfg, row, e.env.proof)
  }

  lemma {:induction false} LoadStreamExact(cfg: Config, stream: seq<Entry>)
    ensures LoadStream(cfg, stream).Ok? <==> forall e :: e in stream ==> Readable(cfg, e)
    ensures LoadStream(cfg, stream).Ok? ==> RowsOfStream(cfg, stream, LoadStream(cfg, stream).value)
  {
    hide Readable, StoredRow, EnvelopeOf;
    if stream != [] {
      var init, e := stream[..|stream| - 1], stream[|stream| - 1];
      assert stream == init + [e];
      LoadStreamExact(cfg, init);
      ReadableExact(cfg, e);
      if LoadStream(cfg, stream).Ok? {
        RowWritten(cfg, e, StoredRow(cfg, e).value);
        OneMoreRow(cfg, init, LoadStream(cfg, init).value, e, StoredRow(cfg, e).value);
      }
    }
  }

  lemma RowWritten(cfg: Config, e: Entry, row: Row)
    requires e == EnvelopeOf(cfg, row, e.env.proof)
    ensures row.time == e.env.time
  {
  }

  lemma OneMoreRow(cfg: Config, init: seq<Entry>, rows: map<int, Row>, e: Entry, row: Row)
    requires RowsOfStream(cfg, init, rows) && e == EnvelopeOf(cfg, row, e.env.proof) && row.time == e.env.time
    ensures RowsOfStream(cfg, init + [e], rows[row.time := row])
  {
    hide EnvelopeOf;
    var stream, more := init + [e], rows[row.time := row];
    assert EntryTimes(stream) == EntryTimes(init) + [row.time];
    DistinctMore(EntryTimes(init), row.time);
    forall ts | ts in more ensures exists i :: 0 <= i < |stream| && Wrote(cfg, stream[i], ts, more[ts]) {
      if ts == row.time {
        assert Wrote(cfg, stream[|init|], ts, more[ts]);
      } else {
        var i :| 0 <= i < |init| && Wrote(cfg, init[i], ts, rows[ts]);
        assert stream[i] == init[i];
      }
    }
  }

  // ---- The gap file ----

  /** An absence on a context-only day, seen twice, first at least ninety seconds after the close. */
  predicate Absence(cfg: Config, gap: Gap) {
    && ContextOnly(cfg, Day(gap.ts)) && IsSlot(cfg, gap.ts)
    && gap.firstAbsent - gap.ts >= 690 && gap.confirmedAbsent >= gap.firstAbsent + 5 && gap.version == VERSION
  }

  lemma AbsenceExact(cfg: Config, gap: Gap)
    ensures ContextGap(cfg, gap.ts, gap.firstAbsent, gap.confirmedAbsent) == Ok(Some(gap)) <==> Absence(cfg, gap)
  {
    hide IsSlot, Day, Weekend;
  }

  ghost predicate GapsOfFile(lines: seq<Gap>, gaps: map<int, Gap>) {
    gaps.Keys == Members(GapTimes(lines)) && forall ts :: ts in gaps ==> gaps[ts] in lines && gaps[ts].ts == ts
  }

  ghost predicate GoodFile(cfg: Config, published: set<int>, lines: seq<Gap>) {
    && (forall gap :: gap in lines ==> Absence(cfg, gap) && gap.ts !in published)
    && Distinct(GapTimes(lines))
  }

  lemma GoodFileMore(cfg: Config, published: set<int>, init: seq<Gap>, gap: Gap)
    ensures GoodFile(cfg, published, init + [gap]) <==>
      && GoodFile(cfg, published, init) && Absence(cfg, gap) && gap.ts !in published
      && gap.ts !in Members(GapTimes(init))
    ensures Members(GapTimes(init + [gap])) == Members(GapTimes(init)) + {gap.ts}
  {
    hide Absence, Distinct;
    var lines := init + [gap];
    assert GapTimes(lines) == GapTimes(init) + [gap.ts];
    DistinctMore(GapTimes(init), gap.ts);
    assert gap in lines && forall x :: x in init ==> x in lines;
  }

  lemma {:induction false} LoadGapsExact(cfg: Config, published: set<int>, lines: seq<Gap>)
    ensures LoadGaps(cfg, published, lines).Some? <==> GoodFile(cfg, published, lines)
    ensures LoadGaps(cfg, published, lines).Some? ==> GapsOfFile(lines, LoadGaps(cfg, published, lines).value)
  {
    hide Absence, ContextGap, Distinct;
    if lines == [] {
      NoLines(cfg, published);
    } else {
      var init, gap := lines[..|lines| - 1], lines[|lines| - 1];
      assert lines == init + [gap];
      LoadGapsExact(cfg, published, init);
      AbsenceExact(cfg, gap);
      GoodFileMore(cfg, published, init, gap);
    }
  }

  lemma NoLines(cfg: Config, published: set<int>)
    ensures GoodFile(cfg, published, []) && GapsOfFile([], map[])
  {
    assert GapTimes([]) == [];
  }

  // ---- The restart ----

  /** Whatever the files hold, however they came about, a restart succeeds if and only if there is no failure marker,
      the stream holds between one and 4499 entries, each the envelope of a proven row and no two for one label, and
      the gap file has at most a megabyte of absences, no two for one label and none for a published one. The memory
      is then what the files say. */
  lemma RestoreExactly(cfg: Config, disk: Disk)
    ensures Restore(cfg, disk).Some? <==>
      && !disk.failed && 0 < |disk.stream| < 4500
      && (forall e :: e in disk.stream ==> Readable(cfg, e)) && Distinct(EntryTimes(disk.stream))
      && GapBytes(disk.gaps) <= 1024 * 1024 && GoodFile(cfg, Members(EntryTimes(disk.stream)), disk.gaps)
    ensures Restore(cfg, disk).Some? ==>
      var Memory(published, gaps, absentSince, candidates, count) := Restore(cfg, disk).value;
      && RowsOfStream(cfg, disk.stream, published) && GapsOfFile(disk.gaps, gaps)
      && absentSince == map[] && candidates == map[] && count == |disk.stream|
  {
    hide Readable, RowsOfStream, GapsOfFile, GoodFile, GapBytes, LoadStream, LoadGaps, Distinct;
    LoadStreamExact(cfg, disk.stream);
    DistinctExact(EntryTimes(disk.stream));
    if LoadStream(cfg, disk.stream).Ok? {
      var published := LoadStream(cfg, disk.stream).value;
      RowKeys(cfg, disk.stream, published);
      LoadGapsExact(cfg, published.Keys, disk.gaps);
    }
  }

  lemma RowKeys(cfg: Config, stream: seq<Entry>, rows: map<int, Row>)
    requires RowsOfStream(cfg, stream, rows)
    ensures rows.Keys == Members(EntryTimes(stream)) && |rows| == |Members(EntryTimes(stream))|
  {
    hide Wrote;
    assert |rows| == |rows.Keys|;
  }
}
