/** The coverage recognizer and the block grammar it accepts. */
module TraceModel {
  import opened Results
  import opened TraceValues

  const BUNDLE_VERSION := "shadow_state_bundle_v1"
  const IDENTITY_KEYS := {
    "model_id", "symbol", "feed_policy", "context_policy", "execution_policy",
    "config_sha256", "reference_sha256", "timeframe", "timezone", "evidence_kind"
  }

  datatype Input = Input(id: string, sha: string, barTs: string)

  /** A trace row: the fields the recognizer reads, and the model state under the schema. */
  datatype Row =
    | Malformed
    | Row(schemaVersion: string, identity: map<string, string>, eventSeq: int, id: string, sha: string, phase: string,
          barTs: string, received: Option<int>, processed: Option<int>, state: Value)

  datatype Manifest = Manifest(bundleVersion: string, traceSchema: string, inputs: seq<Input>, inputsHash: int,
                               identity: map<string, string>, expectedHash: int)

  /** The known schemas and the two checksums, of which only that they are functions is used. */
  datatype Tools = Tools(schemas: map<string, Schema>, inputsHash: seq<Input> -> int, traceHash: seq<Row> -> int)

  datatype Error =
    | BadManifest | BadRow | IdentityMismatch | NonContiguous | ExtraInput | InputMismatch
    | FabricatedReceipt | BadPhases | NotCovered | TraceChecksum | MissingRows | Different

  datatype Coverage = Coverage(index: int, phases: seq<string>, rows: nat)

  const Fresh := Coverage(-1, [], 0)

  predicate CompletePhases(phases: seq<string>) {
    || phases == ["bar_start", "observed", "bar_end"]
    || phases == ["bar_start", "pending_applied", "observed", "bar_end"]
  }

  predicate UniqueIds(inputs: seq<Input>) { forall i, j :: 0 <= i < j < |inputs| ==> inputs[i].id != inputs[j].id }

  predicate ValidManifest(tools: Tools, m: Manifest) {
    && m.bundleVersion == BUNDLE_VERSION && m.traceSchema in tools.schemas
    && m.inputs != [] && UniqueIds(m.inputs)
    && tools.inputsHash(m.inputs) == m.inputsHash
    && m.identity.Keys == IDENTITY_KEYS && m.identity["evidence_kind"] == "numerical_history"
  }

  /** The checks on a row that do not depend on the rows before it. */
  predicate Typed(schema: Schema, row: Row) { row.Row? && Validate(row.state, schema) }

  predicate Matches(item: Input, row: Row)
    requires row.Row?
  {
    row.id == item.id && row.sha == item.sha && row.barTs == item.barTs && row.received.None? && row.processed.None?
  }

  function Accept(tools: Tools, m: Manifest, c: Coverage, row: Row): Result<Coverage, Error>
    requires ValidManifest(tools, m)
  {
    if !Typed(tools.schemas[m.traceSchema], row) then Err(BadRow)
    else if row.schemaVersion != m.traceSchema || row.identity != m.identity then Err(IdentityMismatch)
    else if row.eventSeq != c.rows then Err(NonContiguous)
    else if row.phase == "bar_start" && c.index >= 0 && !CompletePhases(c.phases) then Err(BadPhases)
    else
      var index := if row.phase == "bar_start" then c.index + 1 else c.index;
      var phases := if row.phase == "bar_start" then [] else c.phases;
      if !(0 <= index < |m.inputs|) then Err(ExtraInput)
      else
        var item := m.inputs[index];
        if (row.id, row.sha, row.barTs) != (item.id, item.sha, item.barTs) then Err(InputMismatch)
        else if row.received.Some? || row.processed.Some? then Err(FabricatedReceipt)
        else Ok(Coverage(index, phases + [row.phase], c.rows + 1))
  }

  function AcceptAll(tools: Tools, m: Manifest, rows: seq<Row>): Result<Coverage, Error>
    requires ValidManifest(tools, m)
  {
    if rows == [] then Ok(Fresh) else Then(tools, m, AcceptAll(tools, m, rows[..|rows| - 1]), rows[|rows| - 1])
  }

  function Then(tools: Tools, m: Manifest, r: Result<Coverage, Error>, row: Row): Result<Coverage, Error>
    requires ValidManifest(tools, m)
  {
    match r
    case Err(e) => Err(e)
    case Ok(c) => Accept(tools, m, c, row)
  }

  function Finish(m: Manifest, c: Coverage): Result<nat, Error> {
    if !CompletePhases(c.phases) then Err(BadPhases)
    else if c.index + 1 != |m.inputs| then Err(NotCovered)
    else Ok(c.rows)
  }

  // ---- The grammar ----

  function Phases(rows: seq<Row>): (r: seq<string>)
    ensures |r| == |rows|
  {
    seq(|rows|, i requires 0 <= i < |rows| => if rows[i].Row? then rows[i].phase else "")
  }

  function Flatten(blocks: seq<seq<Row>>): seq<Row> {
    if blocks == [] then [] else Flatten(blocks[..|blocks| - 1]) + blocks[|blocks| - 1]
  }

  /** One block: the rows of one input, in one of the two orders of phases. */
  ghost predicate Block(tools: Tools, m: Manifest, item: Input, block: seq<Row>)
    requires ValidManifest(tools, m)
  {
    && CompletePhases(Phases(block))
    && forall k :: 0 <= k < |block| ==> GoodRow(tools, m, block[k]) && Matches(item, block[k])
  }

  predicate GoodRow(tools: Tools, m: Manifest, row: Row)
    requires ValidManifest(tools, m)
  {
    Typed(tools.schemas[m.traceSchema], row) && row.schemaVersion == m.traceSchema && row.identity == m.identity
  }

  /** One block per manifest input, in order, with contiguous sequence numbers. */
  ghost predicate Covers(tools: Tools, m: Manifest, rows: seq<Row>, blocks: seq<seq<Row>>)
    requires ValidManifest(tools, m)
  {
    && Flatten(blocks) == rows && |blocks| == |m.inputs|
    && (forall i :: 0 <= i < |blocks| ==> Block(tools, m, m.inputs[i], blocks[i]))
    && (forall k :: 0 <= k < |rows| ==> rows[k].Row? && rows[k].eventSeq == k)
  }
}
