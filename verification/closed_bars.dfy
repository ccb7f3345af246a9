/** Bars, slots, proofs and envelopes of the closed-M10 publisher. */
module ClosedBars {
  import opened Results
  import opened Calendar
  import opened Numbers

  const TF := 600
  const GRACE := 5
  const CONFIRM := 5
  const MAX_AGE := 90
  const MAX_ROWS := 4500
  const MAX_RESPONSE := 1500
  const LIFETIME := 40
  const MAX_AUDIT := 1048576
  const VERSION := "shadow_authenticated_rest_closed_m10_v2"

  datatype Fault =
    | BadBar | DuplicateBar | ResponseBudget | SkippedRegular | NotASlot | NotClosed | DeadlineMissed
    | ClockStepped | LifetimeExhausted | UnexpectedLabel | PrefixMissing | ActiveGap | Unavailable
    | Revised | AbsentArrived | BootstrapIncomplete | GapBudget | RowBudget | AppendRefused | AppendFailed
    | BadIdentity | BadProof | BadFinality

  datatype Row = Row(time: int, open: real, high: real, low: real, close: real, volume: real)

  /** A JSON value claiming to be a bar; non-numeric and non-finite fields are `Malformed`. */
  datatype Raw = Malformed | Candle(time: int, open: real, high: real, low: real, close: real, volume: real)

  datatype Origin = History | Live

  datatype Proof = Proof(version: string, origin: Origin, first: int, confirmed: int, closed: int, candle: int)

  datatype Gap = Gap(ts: int, firstAbsent: int, confirmedAbsent: int, version: string)

  datatype Envelope = Envelope(schema: int, source: string, msgType: string, ts: int, symbol: string,
                               time: int, o: real, h: real, l: real, c: real, v: real,
                               origin: Origin, proof: Proof)

  /** A stream entry with its deterministic millisecond ID. */
  datatype Entry = Entry(id: int, env: Envelope)

  /** `fingerprint` stands for SHA-256 of the canonical JSON of a row. */
  datatype Config = Config(symbol: string, start: int, live: int, excluded: set<int>, fingerprint: Row -> int)

  // ---- Calendar of expected labels ----

  predicate ContextOnly(cfg: Config, day: int) { Weekend(day) || day in cfg.excluded }

  function Range(lo: int, hi: int): seq<int> {
    if lo >= hi then [] else seq((hi - lo + TF - 1) / TF, i => lo + i * TF)
  }

  function Slots(cfg: Config, day: int): seq<int> {
    if ContextOnly(cfg, day) then Range(At(day, 590), At(day, 1140)) else Range(At(day, 420), At(day, 1430))
  }

  predicate IsSlot(cfg: Config, ts: int) { ts in Slots(cfg, Day(ts)) }

  /** The first and last label of a day. */
  function Opening(cfg: Config, day: int): int { At(day, if ContextOnly(cfg, day) then 590 else 420) }
  function Closing(cfg: Config, day: int): int { At(day, if ContextOnly(cfg, day) then 1130 else 1420) }

  lemma SlotsExact(cfg: Config, day: int, ts: int)
    ensures ts in Slots(cfg, day) <==>
      Opening(cfg, day) <= ts <= Closing(cfg, day) && (ts - Opening(cfg, day)) % TF == 0
    ensures ts in Slots(cfg, day) ==> Day(ts) == day
    ensures |Slots(cfg, day)| == if ContextOnly(cfg, day) then 55 else 101
  {
    var open, n := Opening(cfg, day), if ContextOnly(cfg, day) then 55 else 101;
    assert |Slots(cfg, day)| == n;
    assert forall i :: 0 <= i < n ==> Slots(cfg, day)[i] == open + i * TF;
    if open <= ts <= Closing(cfg, day) && (ts - open) % TF == 0 {
      var i := (ts - open) / TF;
      assert 0 <= i < n && Slots(cfg, day)[i] == ts;
    }
    if ts in Slots(cfg, day) {
      var i :| 0 <= i < n && Slots(cfg, day)[i] == ts;
      assert ts == open + i * TF;
      assert (i * TF) % TF == 0;
    }
  }

  // ---- Validation of fetched and stored data ----

  predicate ValidRow(row: Row) {
    && row.time > 0 && row.time % TF == 0
    && 0.0 < row.low <= Min(row.open, row.close)
    && Max(row.open, row.close) <= row.high && row.volume >= 0.0
  }

  function CheckBar(raw: Raw): Result<Row, Fault> {
    match raw
    case Malformed => Err(BadBar)
    case Candle(t, o, h, l, c, v) => if ValidRow(Row(t, o, h, l, c, v)) then Ok(Row(t, o, h, l, c, v)) else Err(BadBar)
  }

  function ContextGap(cfg: Config, ts: int, first: int, observed: int): Result<Option<Gap>, Fault> {
    if !ContextOnly(cfg, Day(ts)) then Err(SkippedRegular)
    else if !IsSlot(cfg, ts) then Err(NotASlot)
    else if first < ts + TF + MAX_AGE || observed - first < CONFIRM then Ok(None)
    else Ok(Some(Gap(ts, first, observed, VERSION)))
  }

  // ---- The text of the gap file ----

  function Decimal(n: int): string
    decreases if n < 0 then 1 - n else n
  {
    if n < 0 then "-" + Decimal(-n) else if n < 10 then ["0123456789"[n]] else Decimal(n / 10) + ["0123456789"[n % 10]]
  }

  const GAP_TS := "{\"bar_ts_utc\":"
  const GAP_CONFIRMED := ",\"confirmed_absent_at_utc\":"
  const GAP_FIRST := ",\"first_absent_at_utc\":"
  const GAP_METHOD := ",\"method\":\""
  const GAP_REASON := "\",\"reason\":\"no_bar_in_two_authenticated_responses\"}\n"

  /** The canonical JSON line of a gap. */
  function GapText(gap: Gap): string {
    GAP_TS + Decimal(gap.ts) + GAP_CONFIRMED + Decimal(gap.confirmedAbsent) + GAP_FIRST + Decimal(gap.firstAbsent)
    + GAP_METHOD + gap.version + GAP_REASON
  }

  /** The size of the gap file. */
  function GapBytes(gaps: seq<Gap>): nat {
    if gaps == [] then 0 else GapBytes(gaps[..|gaps| - 1]) + |GapText(gaps[|gaps| - 1])|
  }

  function Power(k: nat): nat { if k == 0 then 1 else 10 * Power(k - 1) }

  lemma {:induction false} DecimalLength(n: int, k: nat)
    requires 0 <= n < Power(k) && k >= 1
    ensures |Decimal(n)| <= k
  {
    if n >= 10 {
      assert k > 1;
      DecimalLength(n / 10, k - 1);
    }
  }

  lemma GapTextLength(gap: Gap)
    requires gap.version == VERSION
    ensures |GapText(gap)| == 166 + |Decimal(gap.ts)| + |Decimal(gap.firstAbsent)| + |Decimal(gap.confirmedAbsent)|
  {
  }

  function OriginOf(cfg: Config, ts: int): Origin {
    if Day(ts) < cfg.live || ContextOnly(cfg, Day(ts)) then History else Live
  }

  function EnvelopeOf(cfg: Config, row: Row, proof: Proof): Entry {
    Entry(row.time * 1000,
          Envelope(1, VERSION, "bar", proof.confirmed, cfg.symbol, row.time,
                   row.open, row.high, row.low, row.close, row.volume, proof.origin, proof))
  }

  function StoredRow(cfg: Config, e: Entry): Result<Row, Fault> {
    var env := e.env;
    if !(env.source == VERSION && env.msgType == "bar" && env.schema == 1 && env.symbol == cfg.symbol)
        then Err(BadIdentity)
    else
      match CheckBar(Candle(env.time, env.o, env.h, env.l, env.c, env.v))
      case Err(f) => Err(f)
      case Ok(row) =>
        var age := env.proof.confirmed - row.time - TF;
        if e.id != row.time * 1000 then Err(BadIdentity)
        else if !(env.proof.version == VERSION && env.proof.origin == env.origin
                  && env.proof.candle == cfg.fingerprint(row) && env.ts == env.proof.confirmed) then Err(BadProof)
        else if !(env.proof.closed == row.time + TF && env.proof.first >= row.time + TF + GRACE) then Err(BadProof)
        else if !(age >= GRACE && (env.origin == History || age <= MAX_AGE)) then Err(BadFinality)
        else if env.proof.confirmed - env.proof.first < CONFIRM then Err(BadFinality)
        else Ok(row)
  }

  /** What a proof says about a row: two observations, at least five seconds apart, the first after the grace
      period, the second within ninety seconds of the close when the row is live. */
  predicate Proven(cfg: Config, row: Row, proof: Proof) {
    && ValidRow(row)
    && proof.version == VERSION
    && proof.candle == cfg.fingerprint(row)
    && proof.closed == row.time + TF
    && proof.first >= proof.closed + GRACE
    && proof.confirmed >= proof.first + CONFIRM
    && (proof.origin == Live ==> proof.confirmed <= proof.closed + MAX_AGE)
  }

  /** Reading back is the exact inverse of writing: the accepted entries are the envelopes of proven rows. */
  lemma StoredRowExact(cfg: Config, e: Entry, row: Row)
    ensures StoredRow(cfg, e) == Ok(row) <==> Proven(cfg, row, e.env.proof) && e == EnvelopeOf(cfg, row, e.env.proof)
  {
    var env := e.env;
    if StoredRow(cfg, e) == Ok(row) {
      assert row == Row(env.time, env.o, env.h, env.l, env.c, env.v);
      assert e == EnvelopeOf(cfg, row, env.proof);
    }
    if Proven(cfg, row, env.proof) && e == EnvelopeOf(cfg, row, env.proof) {
      assert CheckBar(Candle(env.time, env.o, env.h, env.l, env.c, env.v)) == Ok(row);
    }
  }

  /** On calendar labels the ninety-second limit already forces confirmation on the label's own local day,
      so resume, which checks only the age, admits no live row that the writer would have refused. */
  lemma AgeImpliesSameDay(cfg: Config, ts: int, observed: int)
    requires IsSlot(cfg, ts) && 0 <= observed - ts - TF <= MAX_AGE
    ensures Day(observed) == Day(ts)
  {
    SlotsExact(cfg, Day(ts), ts);
  }
}
