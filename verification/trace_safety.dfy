/** The recognizer accepts exactly the grammar. */
module TraceSafety {
  import opened Results
  import opened Increasing
  import opened TraceValues
  import opened TraceModel

  // ---- Accepted rows form blocks ----

  predicate Contiguous(rows: seq<Row>) { forall k :: 0 <= k < |rows| ==> rows[k].Row? && rows[k].eventSeq == k }

  ghost predicate PartialBlock(tools: Tools, m: Manifest, item: Input, block: seq<Row>)
    requires ValidManifest(tools, m)
  {
    && block != [] && Phases(block)[0] == "bar_start"
    && forall k :: 0 <= k < |block| ==> GoodRow(tools, m, block[k]) && Matches(item, block[k])
  }

  /** Complete blocks followed by one that has at least started. */
  ghost predicate Progress(tools: Tools, m: Manifest, rows: seq<Row>, blocks: seq<seq<Row>>, c: Coverage)
    requires ValidManifest(tools, m)
  {
    && Flatten(blocks) == rows && Contiguous(rows) && c.rows == |rows| && c.index + 1 == |blocks| <= |m.inputs|
    && (forall i :: 0 <= i < |blocks| ==> PartialBlock(tools, m, m.inputs[i], blocks[i]))
    && (forall i :: 0 <= i < |blocks| - 1 ==> CompletePhases(Phases(blocks[i])))
    && c.phases == (if blocks == [] then [] else Phases(blocks[|blocks| - 1]))
  }

  lemma FlattenOneMore(blocks: seq<seq<Row>>, block: seq<Row>)
    ensures Flatten(blocks + [block]) == Flatten(blocks) + block
  {
    assert (blocks + [block])[..|blocks|] == blocks;
  }

  lemma PhasesOneMore(block: seq<Row>, row: Row)
    requires row.Row?
    ensures Phases(block + [row]) == Phases(block) + [row.phase]
  {
  }

  lemma ContiguousOneMore(rows: seq<Row>, row: Row)
    requires Contiguous(rows) && row.Row? && row.eventSeq == |rows|
    ensures Contiguous(rows + [row])
  {
  }

  /** Where an accepted row goes: it opens a block or extends the last one. */
  function Extend(blocks: seq<seq<Row>>, row: Row): seq<seq<Row>>
    requires row.Row?
  {
    if row.phase == "bar_start" || blocks == [] then blocks + [[row]]
    else blocks[..|blocks| - 1] + [blocks[|blocks| - 1] + [row]]
  }

  /** What an accepted row looks like. */
  lemma AcceptedRow(tools: Tools, m: Manifest, c: Coverage, row: Row)
    requires ValidManifest(tools, m) && Accept(tools, m, c, row).Ok?
    ensures GoodRow(tools, m, row) && row.eventSeq == c.rows
    ensures var opens := row.phase == "bar_start";
            var index := if opens then c.index + 1 else c.index;
            && 0 <= index < |m.inputs| && Matches(m.inputs[index], row)
            && (opens && c.index >= 0 ==> CompletePhases(c.phases))
            && Accept(tools, m, c, row).value == Coverage(index, (if opens then [] else c.phases) + [row.phase],
                c.rows + 1)
  {
    hide ValidManifest, Validate;
  }

  lemma OpensBlock(tools: Tools, m: Manifest, rows: seq<Row>, blocks: seq<seq<Row>>, c: Coverage, row: Row)
    requires ValidManifest(tools, m) && Progress(tools, m, rows, blocks, c) && GoodRow(tools, m, row) && row.Row?
    requires row.phase == "bar_start" && row.eventSeq == |rows| && |blocks| < |m.inputs|
        && Matches(m.inputs[|blocks|], row)
    requires c.index >= 0 ==> CompletePhases(c.phases)
    ensures Progress(tools, m, rows + [row], blocks + [[row]], Coverage(c.index + 1, [row.phase], c.rows + 1))
  {
    hide ValidManifest, GoodRow, Matches;
    ContiguousOneMore(rows, row);
    FlattenOneMore(blocks, [row]);
    assert Phases([row]) == [row.phase];
    var more := blocks + [[row]];
    forall i | 0 <= i < |more| ensures PartialBlock(tools, m, m.inputs[i], more[i]) {
      if i < |blocks| { assert more[i] == blocks[i]; }
    }
  }

  lemma ExtendsBlock(tools: Tools, m: Manifest, rows: seq<Row>, init: seq<seq<Row>>, last: seq<Row>, c: Coverage,
                     row: Row)
    requires ValidManifest(tools, m) && Progress(tools, m, rows, init + [last], c) && GoodRow(tools, m, row) && row.Row?
    requires row.eventSeq == |rows| && |init| < |m.inputs| && Matches(m.inputs[|init|], row)
    ensures Progress(tools, m, rows + [row], init + [last + [row]],
        Coverage(c.index, c.phases + [row.phase], c.rows + 1))
  {
    hide ValidManifest, GoodRow, Matches, CompletePhases;
    var blocks, more := init + [last], init + [last + [row]];
    ContiguousOneMore(rows, row);
    FlattenOneMore(init, last);
    FlattenOneMore(init, last + [row]);
    PhasesOneMore(last, row);
    assert Flatten(init) + (last + [row]) == rows + [row];
    assert blocks[|init|] == last && more[|init|] == last + [row];
    assert PartialBlock(tools, m, m.inputs[|init|], last);
    forall i | 0 <= i < |init| ensures PartialBlock(tools, m, m.inputs[i], more[i]) && CompletePhases(Phases(more[i])) {
      assert more[i] == blocks[i];
    }
  }

  lemma AcceptedProgress(tools: Tools, m: Manifest, rows: seq<Row>, blocks: seq<seq<Row>>, c: Coverage, row: Row)
    requires ValidManifest(tools, m) && Progress(tools, m, rows, blocks, c) && Accept(tools, m, c, row).Ok?
    ensures row.Row? && Progress(tools, m, rows + [row], Extend(blocks, row), Accept(tools, m, c, row).value)
  {
    AcceptedRow(tools, m, c, row);
    assert c.index + 1 == |blocks| && c.rows == |rows|;
    hide ValidManifest, GoodRow, Matches, Accept, Progress;
    if row.phase == "bar_start" {
      OpensBlock(tools, m, rows, blocks, c, row);
      assert [] + [row.phase] == [row.phase];
    } else {
      var init, last := blocks[..|blocks| - 1], blocks[|blocks| - 1];
      assert blocks == init + [last];
      ExtendsBlock(tools, m, rows, init, last, c, row);
    }
  }

  lemma {:induction false} AcceptedHasBlocks(tools: Tools, m: Manifest, rows: seq<Row>) returns (blocks: seq<seq<Row>>)
    requires ValidManifest(tools, m) && AcceptAll(tools, m, rows).Ok?
    ensures Progress(tools, m, rows, blocks, AcceptAll(tools, m, rows).value)
  {
    hide Accept, ValidManifest, Progress;
    if rows == [] {
      blocks := [];
      NoProgress(tools, m);
    } else {
      var init, row := rows[..|rows| - 1], rows[|rows| - 1];
      var before := AcceptedHasBlocks(tools, m, init);
      AcceptedProgress(tools, m, init, before, AcceptAll(tools, m, init).value, row);
      blocks := Extend(before, row);
      assert rows == init + [row];
    }
  }

  lemma NoProgress(tools: Tools, m: Manifest)
    requires ValidManifest(tools, m)
    ensures Progress(tools, m, [], [], Fresh)
  {
  }

  // ---- Blocks are accepted ----

  lemma AcceptOneMore(tools: Tools, m: Manifest, rows: seq<Row>, row: Row)
    requires ValidManifest(tools, m)
    ensures AcceptAll(tools, m, rows + [row]) == Then(tools, m, AcceptAll(tools, m, rows), row)
  {
    assert (rows + [row])[..|rows|] == rows;
  }

  /** A row that opens the next block after a complete one, or follows within a block, is accepted. */
  lemma RowAccepted(tools: Tools, m: Manifest, rows: seq<Row>, row: Row, c: Coverage, index: nat)
    requires ValidManifest(tools, m) && AcceptAll(tools, m, rows) == Ok(c) && c.rows == |rows| && index < |m.inputs|
    requires GoodRow(tools, m, row) && Matches(m.inputs[index], row) && row.eventSeq == |rows|
    requires if row.phase == "bar_start" then c.index == index - 1 && (index > 0 ==> CompletePhases(c.phases))
        else c.index == index
    ensures AcceptAll(tools, m, rows + [row])
         == Ok(Coverage(index, (if row.phase == "bar_start" then [] else c.phases) + [row.phase], |rows| + 1))
  {
    hide ValidManifest, AcceptAll;
    AcceptOneMore(tools, m, rows, row);
  }

  lemma {:induction false} BlockAccepted(tools: Tools, m: Manifest, rows: seq<Row>, block: seq<Row>, index: nat, n: nat)
    requires ValidManifest(tools, m) && index < |m.inputs| && Contiguous(rows + block) && 0 < n <= |block|
    requires Block(tools, m, m.inputs[index], block)
    requires AcceptAll(tools, m, rows).Ok?
    requires var c := AcceptAll(tools, m, rows).value;
             c.rows == |rows| && c.index == index - 1 && (index > 0 ==> CompletePhases(c.phases))
    ensures AcceptAll(tools, m, rows + block[..n]) == Ok(Coverage(index, Phases(block)[..n], |rows| + n))
  {
    hide AcceptAll, ValidManifest, GoodRow, Matches;
    var row := block[n - 1];
    var sofar := rows + block[..n - 1];
    assert sofar + [row] == rows + block[..n];
    assert (rows + block)[|rows| + n - 1] == row;
    assert Phases(block)[..n] == Phases(block)[..n - 1] + [row.phase] && Phases(block)[n - 1] == row.phase;
    if n == 1 {
      assert sofar == rows;
      RowAccepted(tools, m, rows, row, AcceptAll(tools, m, rows).value, index);
    } else {
      BlockAccepted(tools, m, rows, block, index, n - 1);
      RowAccepted(tools, m, sofar, row, Coverage(index, Phases(block)[..n - 1], |rows| + n - 1), index);
    }
  }

  /** The recognizer's state after some complete blocks. */
  ghost predicate After(m: Manifest, c: Coverage, blocks: seq<seq<Row>>) {
    && c.index == |blocks| - 1 && c.rows == |Flatten(blocks)|
    && c.phases == if blocks == [] then [] else Phases(blocks[|blocks| - 1])
  }

  lemma {:induction false} BlocksAccepted(tools: Tools, m: Manifest, blocks: seq<seq<Row>>)
    requires ValidManifest(tools, m) && |blocks| <= |m.inputs| && Contiguous(Flatten(blocks))
    requires forall i :: 0 <= i < |blocks| ==> Block(tools, m, m.inputs[i], blocks[i])
    ensures AcceptAll(tools, m, Flatten(blocks)).Ok? && After(m, AcceptAll(tools, m, Flatten(blocks)).value, blocks)
  {
    if blocks != [] {
      hide AcceptAll, ValidManifest;
      var init, last := blocks[..|blocks| - 1], blocks[|blocks| - 1];
      assert blocks == init + [last];
      ContiguousPrefix(Flatten(init), last);
      BlocksAccepted(tools, m, init);
      BlockAccepted(tools, m, Flatten(init), last, |init|, |last|);
      assert last[..|last|] == last && Phases(last)[..|last|] == Phases(last);
    }
  }

  lemma ContiguousPrefix(a: seq<Row>, b: seq<Row>)
    requires Contiguous(a + b)
    ensures Contiguous(a)
  {
    assert forall k {:trigger a[k]} :: 0 <= k < |a| ==> (a + b)[k] == a[k];
  }

  // ---- Equivalence ----

  ghost predicate Recognized(tools: Tools, m: Manifest, rows: seq<Row>)
    requires ValidManifest(tools, m)
  {
    AcceptAll(tools, m, rows).Ok? && Finish(m, AcceptAll(tools, m, rows).value).Ok?
  }

  /** A finished trace is accepted if and only if it is one complete block per manifest input, in order. */
  lemma RecognizedExactly(tools: Tools, m: Manifest, rows: seq<Row>)
    requires ValidManifest(tools, m)
    ensures Recognized(tools, m, rows) <==> exists blocks :: Covers(tools, m, rows, blocks)
  {
    if Recognized(tools, m, rows) {
      var blocks := AcceptedHasBlocks(tools, m, rows);
      assert Covers(tools, m, rows, blocks) by { ProgressCovers(tools, m, rows, blocks); }
    }
    if exists blocks :: Covers(tools, m, rows, blocks) {
      var blocks :| Covers(tools, m, rows, blocks);
      BlocksAccepted(tools, m, blocks);
      assert blocks != [];
      assert Block(tools, m, m.inputs[|blocks| - 1], blocks[|blocks| - 1]);
    }
  }

  lemma ProgressCovers(tools: Tools, m: Manifest, rows: seq<Row>, blocks: seq<seq<Row>>)
    requires ValidManifest(tools, m) && Recognized(tools, m, rows)
    requires Progress(tools, m, rows, blocks, AcceptAll(tools, m, rows).value)
    ensures Covers(tools, m, rows, blocks)
  {
    forall i | 0 <= i < |blocks| ensures Block(tools, m, m.inputs[i], blocks[i]) {
      assert PartialBlock(tools, m, m.inputs[i], blocks[i]);
    }
  }

  // ---- Comparing two traces ----

  predicate CompareRow(schema: Schema, a: Row, b: Row)
    requires Typed(schema, a) && Typed(schema, b)
  {
    && a.schemaVersion == b.schemaVersion && a.identity == b.identity && a.eventSeq == b.eventSeq
    && a.id == b.id && a.sha == b.sha && a.phase == b.phase && a.barTs == b.barTs
    && a.received == b.received && a.processed == b.processed && Compare(a.state, b.state, schema)
  }

  /** What a passing comparison certifies. */
  ghost predicate Certified(tools: Tools, m: Manifest, expected: seq<Row>, actual: seq<Row>) {
    && ValidManifest(tools, m) && tools.traceHash(expected) == m.expectedHash
    && |expected| == |actual|
    && Recognized(tools, m, expected) && Recognized(tools, m, actual)
    && var schema := tools.schemas[m.traceSchema];
       forall k :: 0 <= k < |expected| ==>
         Typed(schema, expected[k]) && Typed(schema, actual[k]) && CompareRow(schema, expected[k], actual[k])
  }

  lemma SameSuffix(x: seq<string>, p: seq<string>, y: seq<string>, q: seq<string>)
    requires CompletePhases(p) && CompletePhases(q) && x + p == y + q
    ensures x == y && p == q
  {
    var whole := x + p;
    assert whole[|whole| - 3] == p[|p| - 3] && (y + q)[|whole| - 3] == q[|q| - 3];
    assert |p| == |q|;
    assert whole[..|x|] == x && (y + q)[..|y|] == y && whole[|x|..] == p && (y + q)[|y|..] == q;
  }

  ghost predicate AllComplete(blocks: seq<seq<Row>>) {
    forall i :: 0 <= i < |blocks| ==> CompletePhases(Phases(blocks[i]))
  }

  ghost predicate Aligned(a: seq<seq<Row>>, b: seq<seq<Row>>) {
    |a| == |b| && forall i :: 0 <= i < |a| ==> Phases(a[i]) == Phases(b[i])
  }

  /** Blocks of two traces with the same phases row by row are the same blocks. */
  lemma {:induction false} BlocksAlign(a: seq<seq<Row>>, b: seq<seq<Row>>)
    requires |a| == |b| && Phases(Flatten(a)) == Phases(Flatten(b)) && AllComplete(a) && AllComplete(b)
    ensures Aligned(a, b)
  {
    if a != [] {
      hide CompletePhases, Phases;
      var n := |a| - 1;
      var fa, fb := Flatten(a[..n]), Flatten(b[..n]);
      PhasesJoin(fa, a[n]);
      PhasesJoin(fb, b[n]);
      SameSuffix(Phases(fa), Phases(a[n]), Phases(fb), Phases(b[n]));
      BlocksAlign(a[..n], b[..n]);
      AlignedOneMore(a, b);
    }
  }

  lemma AlignedOneMore(a: seq<seq<Row>>, b: seq<seq<Row>>)
    requires a != [] && |a| == |b| && Aligned(a[..|a| - 1], b[..|b| - 1]) && Phases(a[|a| - 1]) == Phases(b[|b| - 1])
    ensures Aligned(a, b)
  {
    hide Phases;
    var n := |a| - 1;
    forall i | 0 <= i < |a| ensures Phases(a[i]) == Phases(b[i]) {
      if i < n { assert a[..n][i] == a[i] && b[..n][i] == b[i]; }
    }
  }

  lemma PhasesJoin(a: seq<Row>, b: seq<Row>)
    ensures Phases(a + b) == Phases(a) + Phases(b)
  {
  }

  lemma {:induction false} BlocksLength(blocks: seq<seq<Row>>)
    requires AllComplete(blocks)
    ensures 3 * |blocks| <= |Flatten(blocks)| <= 4 * |blocks|
  {
    if blocks != [] {
      BlocksLength(blocks[..|blocks| - 1]);
      assert CompletePhases(Phases(blocks[|blocks| - 1]));
    }
  }

  lemma CertifiedPhases(tools: Tools, m: Manifest, expected: seq<Row>, actual: seq<Row>)
    requires Certified(tools, m, expected, actual)
    ensures Phases(expected) == Phases(actual)
  {
    hide Compare, Validate, Recognized;
    var schema := tools.schemas[m.traceSchema];
    forall k | 0 <= k < |expected| ensures Phases(expected)[k] == Phases(actual)[k] {
      assert CompareRow(schema, expected[k], actual[k]);
    }
  }

  lemma CoversParts(tools: Tools, m: Manifest, rows: seq<Row>, blocks: seq<seq<Row>>)
    requires ValidManifest(tools, m) && Covers(tools, m, rows, blocks)
    ensures Flatten(blocks) == rows && |blocks| == |m.inputs|
    ensures AllComplete(blocks)
  {
    hide CompletePhases, GoodRow, Matches, ValidManifest;
    forall i | 0 <= i < |blocks| ensures CompletePhases(Phases(blocks[i])) {
      assert Block(tools, m, m.inputs[i], blocks[i]);
    }
  }

  /** Two certified traces have the same length, between three and four rows an input, in aligned blocks. */
  lemma CertifiedAligned(tools: Tools, m: Manifest, expected: seq<Row>, actual: seq<Row>)
    requires Certified(tools, m, expected, actual)
    ensures 3 * |m.inputs| <= |expected| == |actual| <= 4 * |m.inputs|
    ensures exists a, b :: Covers(tools, m, expected, a) && Covers(tools, m, actual, b) && Aligned(a, b)
  {
    CertifiedPhases(tools, m, expected, actual);
    hide ValidManifest, Recognized, Covers, CompareRow, Typed, Aligned, AllComplete, Phases, Flatten;
    RecognizedExactly(tools, m, expected);
    RecognizedExactly(tools, m, actual);
    var a :| Covers(tools, m, expected, a);
    var b :| Covers(tools, m, actual, b);
    CoversParts(tools, m, expected, a);
    CoversParts(tools, m, actual, b);
    BlocksAlign(a, b);
    BlocksLength(a);
  }

  lemma CoveredRow(tools: Tools, m: Manifest, rows: seq<Row>, k: nat)
    requires ValidManifest(tools, m) && Recognized(tools, m, rows) && k < |rows|
    ensures GoodRow(tools, m, rows[k]) && rows[k].Row? && rows[k].eventSeq == k
  {
    PrefixAccepted(tools, m, rows, k + 1);
    AcceptOneMore(tools, m, rows[..k], rows[k]);
    assert rows[..k] + [rows[k]] == rows[..k + 1];
    var c := AcceptAll(tools, m, rows[..k]).value;
    AcceptedRow(tools, m, c, rows[k]);
    var _ := AcceptedHasBlocks(tools, m, rows[..k]);
  }

  lemma {:induction false} PrefixAccepted(tools: Tools, m: Manifest, rows: seq<Row>, n: nat)
    requires ValidManifest(tools, m) && n <= |rows| && AcceptAll(tools, m, rows).Ok?
    ensures AcceptAll(tools, m, rows[..n]).Ok?
    ensures n > 0 ==> AcceptAll(tools, m, rows[..n - 1]).Ok?
    decreases |rows|
  {
    hide Accept;
    if n < |rows| {
      assert rows[..|rows| - 1][..n] == rows[..n];
      assert n > 0 ==> rows[..|rows| - 1][..n - 1] == rows[..n - 1];
      PrefixAccepted(tools, m, rows[..|rows| - 1], n);
    } else {
      assert rows[..n] == rows;
    }
  }

  ghost predicate AllBlocks(tools: Tools, m: Manifest, blocks: seq<seq<Row>>)
    requires ValidManifest(tools, m)
  {
    |blocks| <= |m.inputs| && forall i :: 0 <= i < |blocks| ==> Block(tools, m, m.inputs[i], blocks[i])
  }

  /** Rows at the same place of aligned blocks belong to the same input. */
  lemma {:induction false} SameInputs(tools: Tools, m: Manifest, a: seq<seq<Row>>, b: seq<seq<Row>>, k: nat)
    requires ValidManifest(tools, m) && AllBlocks(tools, m, a) && AllBlocks(tools, m, b) && Aligned(a, b)
    requires k < |Flatten(a)|
    ensures |Flatten(a)| == |Flatten(b)|
    ensures var x, y := Flatten(a)[k], Flatten(b)[k];
            x.Row? && y.Row? && x.id == y.id && x.sha == y.sha && x.barTs == y.barTs
            && x.received == y.received && x.processed == y.processed
  {
    hide ValidManifest, GoodRow, CompletePhases;
    var n := |a| - 1;
    if a != [] {
      AlignedPrefix(a, b);
      SameLength(a[..n], b[..n]);
      assert Block(tools, m, m.inputs[n], a[n]) && Block(tools, m, m.inputs[n], b[n]) && Phases(a[n]) == Phases(b[n]);
      assert |a[n]| == |Phases(a[n])| == |b[n]|;
      var before := |Flatten(a[..n])|;
      if k < before {
        BlocksPrefix(tools, m, a);
        BlocksPrefix(tools, m, b);
        SameInputs(tools, m, a[..n], b[..n], k);
      } else {
        assert Flatten(a)[k] == a[n][k - before] && Flatten(b)[k] == b[n][k - before];
        BlockRow(tools, m, m.inputs[n], a[n], k - before);
        BlockRow(tools, m, m.inputs[n], b[n], k - before);
      }
    }
  }

  lemma BlockRow(tools: Tools, m: Manifest, item: Input, block: seq<Row>, k: nat)
    requires ValidManifest(tools, m) && Block(tools, m, item, block) && k < |block|
    ensures block[k].Row? && Matches(item, block[k])
  {
  }

  lemma BlocksPrefix(tools: Tools, m: Manifest, blocks: seq<seq<Row>>)
    requires ValidManifest(tools, m) && AllBlocks(tools, m, blocks) && blocks != []
    ensures AllBlocks(tools, m, blocks[..|blocks| - 1])
  {
    hide Block;
  }

  lemma AlignedPrefix(a: seq<seq<Row>>, b: seq<seq<Row>>)
    requires Aligned(a, b) && a != []
    ensures Aligned(a[..|a| - 1], b[..|b| - 1]) && Phases(a[|a| - 1]) == Phases(b[|b| - 1])
  {
    hide Phases;
  }

  lemma {:induction false} SameLength(a: seq<seq<Row>>, b: seq<seq<Row>>)
    requires Aligned(a, b)
    ensures |Flatten(a)| == |Flatten(b)|
  {
    if a != [] {
      AlignedPrefix(a, b);
      SameLength(a[..|a| - 1], b[..|b| - 1]);
      assert |a[|a| - 1]| == |Phases(a[|a| - 1])| == |b[|b| - 1]|;
    }
  }

  /** What has to be compared between two recognized traces: the phases and the states. */
  ghost predicate SameStates(tools: Tools, m: Manifest, expected: seq<Row>, actual: seq<Row>)
    requires ValidManifest(tools, m) && |expected| == |actual|
  {
    var schema := tools.schemas[m.traceSchema];
    forall k ::
      && 0 <= k < |expected| && expected[k].Row? && actual[k].Row?
      && Validate(expected[k].state, schema) && Validate(actual[k].state, schema) ==>
        expected[k].phase == actual[k].phase && Compare(expected[k].state, actual[k].state, schema)
  }

  /** A comparison passes if and only if the manifest and the checksum are in order, each trace is one complete block
      per input, and row by row the phases agree and the states compare equal; everything else then agrees by itself. */
  lemma CertifiedExactly(tools: Tools, m: Manifest, expected: seq<Row>, actual: seq<Row>)
    ensures Certified(tools, m, expected, actual) <==>
      && ValidManifest(tools, m) && tools.traceHash(expected) == m.expectedHash && |expected| == |actual|
      && (exists blocks :: Covers(tools, m, expected, blocks)) && (exists blocks :: Covers(tools, m, actual, blocks))
      && SameStates(tools, m, expected, actual)
  {
    if ValidManifest(tools, m) {
      RecognizedExactly(tools, m, expected);
      RecognizedExactly(tools, m, actual);
      if |expected| == |actual| && Recognized(tools, m, expected) && Recognized(tools, m, actual) {
        RecognizedRows(tools, m, expected);
        RecognizedRows(tools, m, actual);
        hide Validate, Compare, Covers, Recognized, ValidManifest;
        if SameStates(tools, m, expected, actual) { SameRows(tools, m, expected, actual); }
      }
    }
  }

  function Ids(inputs: seq<Input>): set<string> { set i | 0 <= i < |inputs| :: inputs[i].id }

  lemma IdsExact(inputs: seq<Input>)
    ensures UniqueIds(inputs) <==> |Ids(inputs)| == |inputs|
  {
    var names := seq(|inputs|, i requires 0 <= i < |inputs| => inputs[i].id);
    DistinctExact(names);
    assert Members(names) == Ids(inputs) by {
      forall id | id in Ids(inputs) ensures id in names {
        var i :| 0 <= i < |inputs| && inputs[i].id == id;
        assert names[i] == id;
      }
    }
    assert Distinct(names) <==> UniqueIds(inputs) by {
      assert forall i :: 0 <= i < |inputs| ==> names[i] == inputs[i].id;
    }
  }

  /** Which manifests are in order: the version, a known schema, inputs with as many names as entries, their checksum,
      and the ten identity fields with the one kind of evidence that is certified. */
  lemma ManifestExact(tools: Tools, m: Manifest)
    ensures ValidManifest(tools, m) <==>
      && m.bundleVersion == "shadow_state_bundle_v1" && m.traceSchema in tools.schemas
      && |m.inputs| > 0 && |Ids(m.inputs)| == |m.inputs| && m.inputsHash == tools.inputsHash(m.inputs)
      && m.identity.Keys == {"model_id", "symbol", "feed_policy", "context_policy", "execution_policy",
                             "config_sha256", "reference_sha256", "timeframe", "timezone", "evidence_kind"}
      && ("evidence_kind", "numerical_history") in m.identity.Items
  {
    IdsExact(m.inputs);
  }

  lemma RecognizedRows(tools: Tools, m: Manifest, rows: seq<Row>)
    requires ValidManifest(tools, m) && Recognized(tools, m, rows)
    ensures forall k :: 0 <= k < |rows| ==> GoodRow(tools, m, rows[k]) && rows[k].eventSeq == k
  {
    hide GoodRow, Recognized;
    forall k | 0 <= k < |rows| ensures GoodRow(tools, m, rows[k]) && rows[k].Row? && rows[k].eventSeq == k {
      CoveredRow(tools, m, rows, k);
    }
  }

  lemma SameRows(tools: Tools, m: Manifest, expected: seq<Row>, actual: seq<Row>)
    requires ValidManifest(tools, m) && |expected| == |actual| && SameStates(tools, m, expected, actual)
    requires Recognized(tools, m, expected) && Recognized(tools, m, actual)
    ensures var schema := tools.schemas[m.traceSchema];
            forall k :: 0 <= k < |expected| ==>
              Typed(schema, expected[k]) && Typed(schema, actual[k]) && CompareRow(schema, expected[k], actual[k])
  {
    RecognizedExactly(tools, m, expected);
    RecognizedExactly(tools, m, actual);
    RecognizedRows(tools, m, expected);
    RecognizedRows(tools, m, actual);
    hide Validate, Compare, Recognized, ValidManifest, Flatten, CompletePhases;
    var a :| Covers(tools, m, expected, a);
    var b :| Covers(tools, m, actual, b);
    CoversParts(tools, m, expected, a);
    CoversParts(tools, m, actual, b);
    assert AllBlocks(tools, m, a) && AllBlocks(tools, m, b);
    forall k | 0 <= k < |expected| ensures Phases(expected)[k] == Phases(actual)[k] {
      assert GoodRow(tools, m, expected[k]) && GoodRow(tools, m, actual[k]);
    }
    assert Phases(expected) == Phases(actual);
    BlocksAlign(a, b);
    hide Covers, Block, AllBlocks, Aligned, AllComplete;
    forall k | 0 <= k < |expected|
      ensures Typed(tools.schemas[m.traceSchema], expected[k]) && Typed(tools.schemas[m.traceSchema], actual[k])
      ensures CompareRow(tools.schemas[m.traceSchema], expected[k], actual[k])
    {
      assert GoodRow(tools, m, expected[k]) && GoodRow(tools, m, actual[k]);
      SameInputs(tools, m, a, b, k);
    }
  }
}
