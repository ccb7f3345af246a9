/** The publisher as a state machine: one loop iteration, a death at any append, and resume. */
module ClosedBarLoop {
  import opened Results
  import opened Calendar
  import opened Increasing
  import opened ClosedBars

  /** What survives a crash: the append-only stream, the append-only gap file, the FAILED.json marker. */
  datatype Disk = Disk(stream: seq<Entry>, gaps: seq<Gap>, failed: bool)

  datatype Candidate = Candidate(candle: int, first: int)

  datatype Memory = Memory(published: map<int, Row>, gaps: map<int, Gap>,
                           absentSince: map<int, int>, candidates: map<int, Candidate>, count: nat)

  datatype Process = Down | Up(mem: Memory)

  datatype State = State(disk: Disk, proc: Process)

  /** Everything the outside world supplies to one iteration. `budget` is the number of durable appends that
      succeed before the process dies, negative when it survives; `raised` tells a failed call, which leaves
      FAILED.json behind, from a kill, which does not. */
  datatype Tick = Tick(now: int, steady: bool, reachable: bool, body: seq<Raw>, observed: int,
                       budget: int, raised: bool)

  // ---- Planning a fetch ----

  /** The labels due at `now`, day by day from `first` to `last`. */
  function DueDays(cfg: Config, first: int, last: int, now: int): seq<int>
    decreases last - first
  {
    if first > last then [] else UpTo(Slots(cfg, first), now - TF - GRACE) + DueDays(cfg, first + 1, last, now)
  }

  function Due(cfg: Config, now: int): seq<int> { DueDays(cfg, cfg.start, Day(now), now) }

  predicate IsDue(cfg: Config, now: int, ts: int) {
    cfg.start <= Day(ts) && IsSlot(cfg, ts) && ts + TF + GRACE <= now
  }

  predicate ExpectedLive(cfg: Config, ts: int) { Day(ts) >= cfg.live && !ContextOnly(cfg, Day(ts)) }

  ghost function RequestStart(first: int, published: set<int>): int {
    assert first - 2 * TF in {first - 2 * TF} + NewestTwo(published);
    Least({first - 2 * TF} + NewestTwo(published))
  }

  function RequestEnd(first: int, last: int): int {
    if last <= At(Day(first), 1420) then last else At(Day(first), 1420)
  }

  predicate PrefixComplete(published: set<int>, known: set<int>, due: seq<int>) {
    forall ts :: ts in due && (exists p :: p in published && ts <= p) ==> ts in known
  }

  predicate Unexpected(known: set<int>, due: seq<int>) { exists ts :: ts in known && ts !in due }

  predicate Overdue(cfg: Config, pending: seq<int>, now: int) {
    exists ts :: ts in pending && ExpectedLive(cfg, ts) && now - ts - TF > MAX_AGE
  }

  datatype Plan = Refuse(fault: Fault) | Rest | Fetch(pending: seq<int>, lo: int, hi: int)

  ghost function PlanFetch(cfg: Config, mem: Memory, now: int, steady: bool): Plan {
    var due := Due(cfg, now);
    var known := mem.published.Keys + mem.gaps.Keys;
    var pending := Without(due, known);
    if !steady then Refuse(ClockStepped)
    else if Day(now) - cfg.start > LIFETIME then Refuse(LifetimeExhausted)
    else if Unexpected(known, due) then Refuse(UnexpectedLabel)
    else if !PrefixComplete(mem.published.Keys, known, due) then Refuse(PrefixMissing)
    else if pending == [] then Rest
    else if Overdue(cfg, pending, now) then Refuse(ActiveGap)
    else Fetch(pending, RequestStart(pending[0], mem.published.Keys), RequestEnd(pending[0], pending[|pending| - 1]))
  }

  // ---- Reading the response ----

  function ParsePrefix(body: seq<Raw>, lo: int, hi: int): Result<map<int, Row>, Fault> {
    if body == [] then Ok(map[]) else
      match ParsePrefix(body[..|body| - 1], lo, hi)
      case Err(f) => Err(f)
      case Ok(rows) =>
        match CheckBar(body[|body| - 1])
        case Err(f) => Err(f)
        case Ok(row) =>
          if !(lo <= row.time <= hi) then Ok(rows)
          else if row.time in rows then Err(DuplicateBar)
          else Ok(rows[row.time := row])
  }

  function ParseRows(body: seq<Raw>, lo: int, hi: int): Result<map<int, Row>, Fault> {
    if |body| > MAX_RESPONSE then Err(ResponseBudget) else ParsePrefix(body, lo, hi)
  }

  predicate Unrevised(mem: Memory, rows: map<int, Row>, lo: int, hi: int) {
    forall ts :: ts in mem.published && lo <= ts <= hi ==> ts in rows && rows[ts] == mem.published[ts]
  }

  predicate StillAbsent(mem: Memory, rows: map<int, Row>, lo: int, hi: int) {
    forall ts :: ts in mem.gaps && lo <= ts <= hi ==> ts !in rows
  }

  // ---- Confirming a batch ----

  datatype Progress = Going | Broken | Bad(fault: Fault)

  datatype Harvest = Harvest(absentSince: map<int, int>, candidates: map<int, Candidate>,
                             proofs: seq<(Row, Proof)>, absent: seq<Gap>, progress: Progress)

  function Observe(cfg: Config, candidates: map<int, Candidate>, row: Row, observed: int)
    : Result<(map<int, Candidate>, Option<Proof>), Fault>
  {
    var ts := row.time;
    var age := observed - ts - TF;
    var origin := OriginOf(cfg, ts);
    var candle := cfg.fingerprint(row);
    if age < GRACE then Err(NotClosed)
    else if origin == Live && !(age <= MAX_AGE && Day(ts) == Day(observed)) then Err(DeadlineMissed)
    else if ts !in candidates || candidates[ts].candle != candle then
      Ok((candidates[ts := Candidate(candle, observed)], None))
    else if observed - candidates[ts].first < CONFIRM then Ok((candidates, None))
    else Ok((candidates, Some(Proof(VERSION, origin, candidates[ts].first, observed, ts + TF, candle))))
  }

  function HarvestOne(cfg: Config, rows: map<int, Row>, observed: int, ts: int, h: Harvest): Harvest {
    if ts !in rows then
      if ContextOnly(cfg, Day(ts)) then
        if observed < ts + TF + MAX_AGE then h else
          var first := if ts in h.absentSince then h.absentSince[ts] else observed;
          match ContextGap(cfg, ts, first, observed)
          case Err(f) => h.(absentSince := h.absentSince[ts := first], progress := Bad(f))
          case Ok(None) => h.(absentSince := h.absentSince[ts := first])
          case Ok(Some(gap)) => h.(absentSince := h.absentSince[ts := first], absent := h.absent + [gap])
      else if Day(ts) < cfg.live then h.(progress := Bad(BootstrapIncomplete))
      else h.(progress := Broken)
    else
      match Observe(cfg, h.candidates, rows[ts], observed)
      case Err(f) => h.(absentSince := h.absentSince - {ts}, progress := Bad(f))
      case Ok((cs, None)) => h.(absentSince := h.absentSince - {ts}, candidates := cs)
      case Ok((cs, Some(proof))) =>
        h.(absentSince := h.absentSince - {ts}, candidates := cs, proofs := h.proofs + [(rows[ts], proof)])
  }

  function HarvestAll(cfg: Config, rows: map<int, Row>, observed: int, batch: seq<int>, h: Harvest): Harvest {
    if batch == [] then h else
      var before := HarvestAll(cfg, rows, observed, batch[..|batch| - 1], h);
      if before.progress == Going then HarvestOne(cfg, rows, observed, batch[|batch| - 1], before) else before
  }

  // ---- Appending ----

  datatype Fate = Writing | Dead | Stopped(fault: Fault)

  datatype Writer = Writer(disk: Disk, mem: Memory, budget: int, fate: Fate)

  function AppendGap(w: Writer, gap: Gap): Writer {
    if w.fate != Writing then w
    else if |w.mem.gaps| >= MAX_ROWS then w.(fate := Stopped(GapBudget))
    else if w.budget == 0 then w.(fate := Dead)
    else w.(disk := w.disk.(gaps := w.disk.gaps + [gap]),
            mem := w.mem.(gaps := w.mem.gaps[gap.ts := gap]), budget := w.budget - 1)
  }

  /** Redis refuses an explicit ID that is not greater than the top of the stream. */
  function AppendRow(cfg: Config, w: Writer, row: Row, proof: Proof): Writer {
    var entry := EnvelopeOf(cfg, row, proof);
    var stream := w.disk.stream;
    if w.fate != Writing then w
    else if w.mem.count >= MAX_ROWS then w.(fate := Stopped(RowBudget))
    else if w.budget == 0 then w.(fate := Dead)
    else if stream != [] && entry.id <= stream[|stream| - 1].id then w.(fate := Stopped(AppendRefused))
    else w.(disk := w.disk.(stream := stream + [entry]),
            mem := w.mem.(published := w.mem.published[row.time := row], count := w.mem.count + 1,
                          candidates := w.mem.candidates - {row.time}),
            budget := w.budget - 1)
  }

  function AppendGaps(w: Writer, gaps: seq<Gap>): Writer {
    if gaps == [] then w else AppendGap(AppendGaps(w, gaps[..|gaps| - 1]), gaps[|gaps| - 1])
  }

  function AppendRows(cfg: Config, w: Writer, proofs: seq<(Row, Proof)>): Writer {
    if proofs == [] then w else
      AppendRow(cfg, AppendRows(cfg, w, proofs[..|proofs| - 1]), proofs[|proofs| - 1].0, proofs[|proofs| - 1].1)
  }

  // ---- One iteration ----

  function Fail(disk: Disk): State { State(disk.(failed := true), Down) }

  ghost function Attempt(cfg: Config, disk: Disk, mem: Memory, tick: Tick, pending: seq<int>, lo: int, hi: int): State {
    if !tick.reachable then Fail(disk) else
    match ParseRows(tick.body, lo, hi)
    case Err(_) => Fail(disk)
    case Ok(rows) =>
      if !Unrevised(mem, rows, lo, hi) || !StillAbsent(mem, rows, lo, hi) then Fail(disk) else
      var batch := UpTo(pending, hi);
      var h := HarvestAll(cfg, rows, tick.observed, batch, Harvest(mem.absentSince, mem.candidates, [], [], Going));
      var mem' := mem.(absentSince := h.absentSince, candidates := h.candidates);
      if h.progress.Bad? then Fail(disk)
      else if |h.proofs| + |h.absent| != |batch| then State(disk, Up(mem'))
      else
        var w := AppendRows(cfg, AppendGaps(Writer(disk, mem', tick.budget, Writing), h.absent), h.proofs);
        match w.fate
        case Writing => State(w.disk, Up(w.mem))
        case Dead => if tick.raised then Fail(w.disk) else State(w.disk, Down)
        case Stopped(_) => Fail(w.disk)
  }

  ghost function Iterate(cfg: Config, s: State, tick: Tick): State {
    match s.proc
    case Down => s
    case Up(mem) =>
      match PlanFetch(cfg, mem, tick.now, tick.steady)
      case Refuse(_) => Fail(s.disk)
      case Rest => s
      case Fetch(pending, lo, hi) => Attempt(cfg, s.disk, mem, tick, pending, lo, hi)
  }

  // ---- Resume ----

  function LoadStream(cfg: Config, stream: seq<Entry>): Result<map<int, Row>, Fault> {
    if stream == [] then Ok(map[]) else
      match LoadStream(cfg, stream[..|stream| - 1])
      case Err(f) => Err(f)
      case Ok(rows) =>
        match StoredRow(cfg, stream[|stream| - 1])
        case Err(f) => Err(f)
        case Ok(row) => Ok(rows[row.time := row])
  }

  function LoadGaps(cfg: Config, published: set<int>, lines: seq<Gap>): Option<map<int, Gap>> {
    if lines == [] then Some(map[]) else
      match LoadGaps(cfg, published, lines[..|lines| - 1])
      case None => None
      case Some(gaps) =>
        var gap := lines[|lines| - 1];
        if gap.ts in gaps || gap.ts in published then None
        else if ContextGap(cfg, gap.ts, gap.firstAbsent, gap.confirmedAbsent) != Ok(Some(gap)) then None
        else Some(gaps[gap.ts := gap])
  }

  function Restore(cfg: Config, disk: Disk): Option<Memory> {
    var count := |disk.stream|;
    if disk.failed || count == 0 || count >= MAX_ROWS then None else
      match LoadStream(cfg, disk.stream)
      case Err(_) => None
      case Ok(published) =>
        if |published| != count || GapBytes(disk.gaps) > MAX_AUDIT then None else
          match LoadGaps(cfg, published.Keys, disk.gaps)
          case None => None
          case Some(gaps) => Some(Memory(published, gaps, map[], map[], count))
  }

  /** A restart is refused while the writer runs, and otherwise exactly when `Restore` finds a fault. */
  function Resume(cfg: Config, s: State): State {
    if s.proc.Up? then s else
      match Restore(cfg, s.disk)
      case None => s
      case Some(mem) => State(s.disk, Up(mem))
  }

  // ---- Runs ----

  datatype Event = Loop(tick: Tick) | Kill | Restart

  const Fresh := State(Disk([], [], false), Up(Memory(map[], map[], map[], map[], 0)))

  ghost function Step(cfg: Config, s: State, e: Event): State {
    match e
    case Loop(tick) => Iterate(cfg, s, tick)
    case Kill => s.(proc := Down)
    case Restart => Resume(cfg, s)
  }

  /** The state after any sequence of iterations, kills and restarts of one generation. */
  ghost function Run(cfg: Config, events: seq<Event>): State {
    if events == [] then Fresh else Step(cfg, Run(cfg, events[..|events| - 1]), events[|events| - 1])
  }
}
