/** The causal replay: routing by calendar cutoffs and one frozen session per observed day. */
module RiHistory {
  import opened Results
  import opened Calendar
  import opened RiModel
  import opened RiContext

  datatype Item = Item(bar: Bar, available: int)

  datatype Route = ContextRoute | NonModelBar | AtOrAfterCutoff | RecoveryDisabled | NonClosingRecovery

  /** `blackout` holds the days of the summer window in which no session may trade. */
  datatype Setup = Setup(policy: Policy, first: int, blackout: set<int>)

  datatype Error = InvalidStream | Unresolved | PendingExitWithoutPosition | NoObservations

  /** The reference model of one day. */
  datatype Model = Model(day: int, session: Session)

  datatype Row = Row(route: Route, observed: bool, state: Option<Session>, actions: seq<Action>)

  datatype Replay = Replay(canonical: seq<Item>, model: Option<Model>, rows: seq<Row>)

  function Cutoff(day: int): int { At(day, OpeningMinute(day)) }

  function NextWeekday(day: int): int
    decreases 7 - Weekday(day)
  {
    if Weekend(day) && Weekday(day) < 6 then NextWeekday(day + 1) else if Weekend(day) then day + 1 else day
  }

  function NextCutoff(day: int): int { Cutoff(NextWeekday(day + 1)) }

  function RouteOf(item: Item, policy: Policy): Route {
    var b := item.bar;
    if !IsModelBar(b) then NonModelBar
    else if item.available >= NextCutoff(Day(b.time)) then AtOrAfterCutoff
    else if b.origin == HistoryGap && policy == RuntimeAcceptedOnly then RecoveryDisabled
    else if b.origin == HistoryGap && MinuteOfDay(b.time) != LAST_MINUTE then NonClosingRecovery
    else ContextRoute
  }

  predicate Observed(cfg: Setup, item: Item) {
    var day := Day(item.bar.time);
    RouteOf(item, cfg.policy) == ContextRoute && item.bar.origin == Live && day >= cfg.first
        && day == Day(item.available)
  }

  predicate Before(a: Item, b: Item) {
    a.available < b.available || (a.available == b.available && a.bar.time < b.bar.time)
  }

  /** The checks on a stream: valid bars, available after their close, ordered by availability, unique times. */
  predicate ValidStream(items: seq<Item>) {
    && (forall i :: 0 <= i < |items| ==> ValidBar(items[i].bar) && items[i].available >= items[i].bar.time + 600)
    && (forall i, j :: 0 <= i < j < |items| ==> Before(items[i], items[j]) && items[i].bar.time != items[j].bar.time)
  }

  function CalendarAllows(cfg: Setup, day: int): bool { Weekday(day) != 4 && day !in cfg.blackout }

  /** The bars of the admitted items that were available before the opening of `day`, on earlier dates. */
  function Warmup(canonical: seq<Item>, day: int): seq<Bar> {
    if canonical == [] then [] else
      var init, last := Warmup(canonical[..|canonical| - 1], day), canonical[|canonical| - 1];
      if last.available < Cutoff(day) && Day(last.bar.time) < day then init + [last.bar] else init
  }

  ghost function NewModel(cfg: Setup, warmup: seq<Bar>, day: int): Model {
    Model(day, Begin(ContextOf(warmup, cfg.policy), CalendarAllows(cfg, day)))
  }

  predicate IsFlat(s: Session) { s.mr.None? && s.bo.None? && s.pending.None? && s.phase == Flat }

  ghost function ObserveItem(cfg: Setup, r: Replay, item: Item): Result<(Model, seq<Action>), Error> {
    var day := Day(item.bar.time);
    var newDay := r.model.None? || r.model.value.day != day;
    if newDay && r.model.Some? && !IsFlat(r.model.value.session) then Err(Unresolved)
    else
      var model := if newDay then NewModel(cfg, Warmup(r.canonical, day), day) else r.model.value;
      match Step(model.session, item.bar)
      case None => Err(PendingExitWithoutPosition)
      case Some(out) => Ok((model.(session := out.s), out.actions))
  }

  ghost function Advance(cfg: Setup, r: Replay, item: Item): Result<Replay, Error> {
    var route := RouteOf(item, cfg.policy);
    var canonical := if route == ContextRoute then r.canonical + [item] else r.canonical;
    if Observed(cfg, item) then
      match ObserveItem(cfg, r, item)
      case Err(e) => Err(e)
      case Ok((model, acts)) => Ok(Replay(canonical, Some(model),
          r.rows + [Row(route, true, Some(model.session), acts)]))
    else
      var state := if r.model.None? then None else Some(r.model.value.session);
      Ok(Replay(canonical, r.model, r.rows + [Row(route, false, state, [])]))
  }

  ghost function ReplayOf(cfg: Setup, items: seq<Item>): Result<Replay, Error> {
    if items == [] then Ok(Replay([], None, [])) else
    match ReplayOf(cfg, items[..|items| - 1])
    case Err(e) => Err(e)
    case Ok(r) => Advance(cfg, r, items[|items| - 1])
  }

  ghost function ExpectedRows(cfg: Setup, items: seq<Item>): Result<seq<Row>, Error> {
    if !ValidStream(items) then Err(InvalidStream) else
    match ReplayOf(cfg, items)
    case Err(e) => Err(e)
    case Ok(r) =>
      if r.model.None? then Err(NoObservations)
      else if !IsFlat(r.model.value.session) then Err(Unresolved)
      else Ok(r.rows)
  }
}
