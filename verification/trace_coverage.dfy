/** The recognizer as an object fed row by row, and the comparison of two traces. */
module TraceCoverage {
  import opened Results
  import opened TraceValues
  import opened TraceSafety
  import M = TraceModel

  class Coverage {
    const tools: M.Tools
    const manifest: M.Manifest
    var inputIndex: int
    var phases: seq<string>
    var rows: nat

    ghost predicate Valid() { M.ValidManifest(tools, manifest) }

    function Now(): M.Coverage
      reads this
    {
      M.Coverage(inputIndex, phases, rows)
    }

    constructor (tools: M.Tools, manifest: M.Manifest)
      requires M.ValidManifest(tools, manifest)
      ensures this.tools == tools && this.manifest == manifest && Valid() && Now() == M.Fresh
    {
      this.tools, this.manifest := tools, manifest;
      inputIndex, phases, rows := -1, [], 0;
    }

    method EndInput() returns (ok: bool)
      ensures ok <==> M.CompletePhases(phases)
    {
      ok := phases == ["bar_start", "observed", "bar_end"]
         || phases == ["bar_start", "pending_applied", "observed", "bar_end"];
    }

    /** After an error the object is not used again. */
    method Accept(row: M.Row) returns (r: Result<(), M.Error>)
      requires Valid()
      modifies this
      ensures match M.Accept(tools, manifest, old(Now()), row)
              case Ok(next) => r == Ok(()) && Now() == next
              case Err(e) => r == Err(e)
    {
      hide Validate, M.CompletePhases;
      if !M.Typed(tools.schemas[manifest.traceSchema], row) { return Err(M.BadRow); }
      if row.schemaVersion != manifest.traceSchema || row.identity != manifest.identity {
        return Err(M.IdentityMismatch);
      }
      if row.eventSeq != rows { return Err(M.NonContiguous); }
      if row.phase == "bar_start" {
        if inputIndex >= 0 {
          var ok := EndInput();
          if !ok { return Err(M.BadPhases); }
        }
        inputIndex := inputIndex + 1;
        phases := [];
      }
      if !(0 <= inputIndex < |manifest.inputs|) { return Err(M.ExtraInput); }
      var item := manifest.inputs[inputIndex];
      if (row.id, row.sha, row.barTs) != (item.id, item.sha, item.barTs) { return Err(M.InputMismatch); }
      if row.received.Some? || row.processed.Some? { return Err(M.FabricatedReceipt); }
      phases := phases + [row.phase];
      rows := rows + 1;
      return Ok(());
    }

    /** After the rows `seen` have been accepted: passes exactly the traces of the grammar. */
    method Finish(ghost seen: seq<M.Row>) returns (r: Result<nat, M.Error>)
      requires Valid() && M.AcceptAll(tools, manifest, seen) == Ok(Now())
      ensures r == M.Finish(manifest, Now())
      ensures r.Ok? <==> exists blocks :: M.Covers(tools, manifest, seen, blocks)
      ensures r.Ok? ==> r.value == |seen|
    {
      hide M.AcceptAll, M.ValidManifest, M.Covers;
      RecognizedExactly(tools, manifest, seen);
      AcceptedCount(tools, manifest, seen);
      var ok := EndInput();
      if !ok { return Err(M.BadPhases); }
      if inputIndex + 1 != |manifest.inputs| { return Err(M.NotCovered); }
      return Ok(rows);
    }
  }

  lemma AcceptedCount(tools: M.Tools, m: M.Manifest, rows: seq<M.Row>)
    requires M.ValidManifest(tools, m) && M.AcceptAll(tools, m, rows).Ok?
    ensures M.AcceptAll(tools, m, rows).value.rows == |rows|
  {
    var _ := AcceptedHasBlocks(tools, m, rows);
  }

  lemma CertifiedRow(tools: M.Tools, m: M.Manifest, expected: seq<M.Row>, actual: seq<M.Row>, k: nat)
    requires Certified(tools, m, expected, actual) && k < |expected|
    ensures var schema := tools.schemas[m.traceSchema];
            M.Typed(schema, expected[k]) && M.Typed(schema, actual[k]) && CompareRow(schema, expected[k], actual[k])
    ensures M.AcceptAll(tools, m, expected[..k + 1]).Ok? && M.AcceptAll(tools, m, actual[..k + 1]).Ok?
  {
    PrefixAccepted(tools, m, expected, k + 1);
    PrefixAccepted(tools, m, actual, k + 1);
  }

  lemma AcceptNext(tools: M.Tools, m: M.Manifest, rows: seq<M.Row>, k: nat)
    requires M.ValidManifest(tools, m) && k < |rows|
    ensures M.AcceptAll(tools, m, rows[..k + 1]) == M.Then(tools, m, M.AcceptAll(tools, m, rows[..k]), rows[k])
  {
    assert rows[..k + 1][..k] == rows[..k];
  }

  /** Passes, with the number of rows, exactly the certified pairs of traces. */
  method CompareTraces(tools: M.Tools, m: M.Manifest, expected: seq<M.Row>, actual: seq<M.Row>)
      returns (r: Result<nat, M.Error>)
    ensures r.Ok? <==> Certified(tools, m, expected, actual)
    ensures r.Ok? ==> r.value == |expected|
  {
    hide M.Accept, M.Finish, M.Typed, CompareRow, M.AcceptAll;
    if tools.traceHash(expected) != m.expectedHash { return Err(M.TraceChecksum); }
    if !M.ValidManifest(tools, m) { return Err(M.BadManifest); }
    var left := new Coverage(tools, m);
    var right := new Coverage(tools, m);
    var schema := tools.schemas[m.traceSchema];
    var i := 0;
    StartOf(tools, m, expected);
    StartOf(tools, m, actual);
    while i < |expected| || i < |actual|
      invariant 0 <= i <= |expected| && i <= |actual|
      invariant M.AcceptAll(tools, m, expected[..i]) == Ok(left.Now())
      invariant M.AcceptAll(tools, m, actual[..i]) == Ok(right.Now())
      invariant left.rows == i && left != right && fresh(left) && fresh(right)
      invariant forall k :: 0 <= k < i ==>
        M.Typed(schema, expected[k]) && M.Typed(schema, actual[k]) && CompareRow(schema, expected[k], actual[k])
      decreases |expected| - i
    {
      if i == |expected| || i == |actual| { return Err(M.MissingRows); }
      if Certified(tools, m, expected, actual) { CertifiedRow(tools, m, expected, actual, i); }
      AcceptNext(tools, m, expected, i);
      AcceptNext(tools, m, actual, i);
      AcceptCounts(tools, m, left.Now(), expected[i]);
      AcceptCounts(tools, m, right.Now(), actual[i]);
      var first := left.Accept(expected[i]);
      if first.Err? { return Err(first.error); }
      var second := right.Accept(actual[i]);
      if second.Err? { return Err(second.error); }
      if !CompareRow(schema, expected[i], actual[i]) { return Err(M.Different); }
      i := i + 1;
    }
    assert expected[..i] == expected && actual[..i] == actual;
    r := left.Finish(expected);
    if r.Ok? {
      var other := right.Finish(actual);
      if other.Err? { r := Err(other.error); }
    }
    FinishedRows(m, left.Now());
  }

  lemma StartOf(tools: M.Tools, m: M.Manifest, rows: seq<M.Row>)
    requires M.ValidManifest(tools, m)
    ensures M.AcceptAll(tools, m, rows[..0]) == Ok(M.Fresh)
  {
  }

  lemma FinishedRows(m: M.Manifest, c: M.Coverage)
    ensures M.Finish(m, c).Ok? ==> M.Finish(m, c).value == c.rows
  {
  }

  lemma AcceptCounts(tools: M.Tools, m: M.Manifest, c: M.Coverage, row: M.Row)
    requires M.ValidManifest(tools, m)
    ensures M.Accept(tools, m, c, row).Ok? ==>
      M.Typed(tools.schemas[m.traceSchema], row) && M.Accept(tools, m, c, row).value.rows == c.rows + 1
  {
    hide M.Typed;
  }
}
