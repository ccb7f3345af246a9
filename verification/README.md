# Verification of the shadow pipeline and the order gateway

Dafny models, with machine-checked proofs, of the stateful parts of the repository. Each part has a specification
written as step functions on datatypes, lemmas about every run of those steps, and a class or loop in the form of the
original that is proved to compute the specification.

- **Closed-bar publisher** (`closed_bars`, `closed_bar_loop`, `closed_bar_safety`, `closed_bar_runs`,
  `closed_bar_evidence`, `closed_bar_outcome`, `closed_bar_cut`, `closed_bar_restore`, `closed_bar_clock`,
  `closed_bar_source`). Durable state is a stream and a gap file; the process may die between any two appends. Clock
  readings and responses are arbitrary. The calendar, order and evidence of everything published survive every partial
  commit and every restart, the outcome of an iteration is stated over the response alone, and a restart is decided
  for any contents of the files.
- **RI session machine and causal replay** (`ri_model`, `ri_safety`, `ri_causality`, `ri_loss`, `ri_context`,
  `ri_oracle`, `ri_foretold`, `ri_totals`, `ri_history`, `ri_freeze`, `ri_told_rows`, `ri_routes`, `ri_reference`).
  Prices are reals. The ledger that reads the action stream, the offline definition of a frozen day, and an oracle
  that tells every action from the bars and the earlier actions are stated independently of the machine.
- **Bar pipeline** (`gateway_bars`, `router_model`, `router`, `bars_loop`, `bars_safety`, `bars_flow`, `bars_checked`,
  `bars_task`, `data_report`, `backfill_plan`). Phase, readiness, the clock and the consumer are arbitrary at each bar.
  The router refines a specification on whole histories, and what its order is worth to the gap buffers is proved for
  the two loops together.
- **Command session** (`cws_model`, `cws_runs`, `cws_counters`, `cws_answers`, `cws_session`), **exit permit**
  (`permit_model`, `exit_permit`) and **staleness** (`stale_path`). The fate of each send is told from the events after
  it. Lock-protected blocks are atomic steps in any interleaving.
- **Trace gate** (`trace_values`, `trace_model`, `trace_safety`, `trace_coverage`). An online recognizer against a
  block grammar.
- **Attempt log** (`attempt_model`, `attempt_runs`, `attempt_log`). A create-exclusive directory protocol with crashes
  and torn files.

`results`, `numbers`, `calendar` and `increasing` are shared. `dafny verify dfyconfig.toml` checks everything.

Some results qualify what one might expect of the code. The control counters balance only while no guid in flight is
reused and no session with requests in flight is recycled (`CwsRuns.BalanceExact`). The data report flags every symbol
that had ignored frames, since those are never counted as received (`DataReport.ReportedExactly`). A flush emits bars
that the validator has never seen, so its output is well formed only if the buffers were
(`BarsChecked.FlushValidExactly`). A backfill limit above 2^63 plus the aligned clock reading accepts starts in the
future (`BackfillPlan.HonestExactly`). Comparison of traces is transitive only under schemas without floats
(`TraceValues.TransitiveExactly`). Recycling cannot cure a control path that is stale for want of a recent success
(`StalePath.OnlySuccessCures`). A clean operator stop whose file exceeds 64 KiB ends the attempt log for good
(`AttemptRuns.OversizedStopIsFatal`). A clock that steps back within its tolerance can end a publisher generation
(`ClosedBarClock.ClockStepRefused`).

## Model

| member | source | states |
|---|---|---|
| ClosedBarRuns.NoHolesEver | alor-rs-main/scripts/shadow_closed_bar_source.py:338-414 | After every run of iterations, kills at any append and restarts: stream and gap labels are disjoint, every calendar slot up to any published label is in one of them, gaps lie on context-only days only, and a regular day with a later published label has all 101 slots in the stream |
| ClosedBarRuns.ChecksNeverFail | alor-rs-main/scripts/shadow_closed_bar_source.py:347-351 | While the clock readings never go back, neither the unexpected-label nor the missing-prefix check can fail in any reachable state, however often the process died |
| ClosedBarSafety.PrefixNeverMissing | alor-rs-main/scripts/shadow_closed_bar_source.py:350-351 | The missing-prefix check cannot fail whatever the clock does |
| ClosedBarSafety.UnexpectedExactly | alor-rs-main/scripts/shadow_closed_bar_source.py:349 | With the clock free, the unexpected-label check fails exactly when some known label is not yet due at the clock reading |
| ClosedBarClock.ClockStepRefused | alor-rs-main/scripts/shadow_closed_bar_source.py:340-349 | That happens within the tolerance on the clock: on any regular start day a run whose readings drift three seconds ahead and then four behind publishes the first bar and ends the generation in the next iteration |
| ClosedBarRuns.FetchesAreGood | alor-rs-main/scripts/shadow_closed_bar_source.py:359-372 | Whenever a run fetches, the first pending slot follows every published label, the batch is non-empty, inside one local day and the request window, and the two newest published rows lie in the window |
| ClosedBarRuns.CountTestExact | alor-rs-main/scripts/shadow_closed_bar_source.py:373-394 | Comparing the number of proofs and absences with the batch size passes exactly when every slot of the batch has a proof or an absence |
| ClosedBarRuns.AppendOnly | alor-rs-main/scripts/shadow_closed_bar_source.py:395-412 | A step only extends the two files, and a generation marked failed is never written again |
| ClosedBarRuns.RestartExactly | alor-rs-main/scripts/shadow_closed_bar_source.py:291-334 | After any run a dead process restarts if and only if there is no failure marker, something was published, and the gap file is at most one megabyte: re-validation never refuses what the publisher itself wrote |
| ClosedBarRuns.ResumeExactly | alor-rs-main/scripts/shadow_closed_bar_source.py:312-334 | On every sound durable state resume succeeds under exactly that condition and rebuilds memory that mirrors the files |
| ClosedBarRestore.RestoreExactly | alor-rs-main/scripts/shadow_closed_bar_source.py:291-334 | Whatever the two files hold, a restart succeeds if and only if there is no failure marker, the stream has 1 to 4499 entries, each the envelope of a proven row and no two for one label, and the gap file has at most a megabyte of absences, no two for one label and none for a published one; memory is then what the files say |
| ClosedBarRuns.RunKeeps | alor-rs-main/scripts/shadow_closed_bar_source.py:289-422 | Every run keeps the invariant: sound files without holes, and memory that mirrors them while the process is up |
| ClosedBarOutcome.PlanExactly | alor-rs-main/scripts/shadow_closed_bar_source.py:339-363 | At a steady clock: the loop refuses exactly if an awaited live label is unknown 690 s after it opened, rests exactly if no label is awaited, and otherwise fetches exactly the awaited ones |
| ClosedBarOutcome.RefusalsExact | alor-rs-main/scripts/shadow_closed_bar_source.py:340-351 | The other refusals of the loop head, each exactly under its own condition: a stepped clock, more than forty days, a known label not yet due; a missing prefix never |
| ClosedBarOutcome.WindowExact | alor-rs-main/scripts/shadow_closed_bar_source.py:359-363 | The request window reaches back exactly to the least of two slots before the first pending label and the two newest published ones, and forward to the last pending label or 23:40 of the first one's day, whichever is earlier |
| ClosedBarOutcome.ResponseExact | alor-rs-main/scripts/shadow_closed_bar_source.py:90-100 | A response is read exactly if it has at most 1500 bars, none bad and none repeated, and what is read is exactly its bars in the window |
| ClosedBarOutcome.IterationExactly | alor-rs-main/scripts/shadow_closed_bar_source.py:364-414 | In every reachable state the generation is marked failed if and only if the response is faulty: unreadable, at odds with what was published, or spoilt, before the first missing regular slot from activation on, by a missing regular slot before activation, a bar too young, or a live bar past its deadline or day. Such a missing slot leaves disk and process up; an unsettled batch is not written; a settled one is divided between stream and gap file by presence |
| ClosedBarCut.CutExactly | alor-rs-main/scripts/shadow_closed_bar_source.py:395-414 | What an iteration leaves that dies at its k-th append is exactly what it would have left alive, cut after k appends, absences before rows; it dies exactly if there were more, so every partial commit is covered |
| ClosedBarOutcome.WaitingRemembers | alor-rs-main/scripts/shadow_closed_bar_source.py:109-128 | After an iteration that waits, every label of the batch carries the candidate or the absence that its response showed |
| ClosedBarSafety.CommitKeeps | alor-rs-main/scripts/shadow_closed_bar_source.py:395-414 | Appending a harvested batch keeps that invariant wherever the process dies within it |
| ClosedBars.StoredRowExact | alor-rs-main/scripts/shadow_closed_bar_source.py:223-258 | An entry is read back as a row if and only if the row is proven and the entry is that row's envelope: reading is the exact inverse of writing |
| ClosedBars.SlotsExact | alor-rs-main/scripts/shadow_closed_bar_source.py:56-59 | A label is a slot of a day iff it lies on the ten-minute grid between the day's first and last label; 101 slots on regular days, 55 on context-only days |
| ClosedBars.AgeImpliesSameDay | alor-rs-main/scripts/shadow_closed_bar_source.py:115-117 | On calendar labels the 90-second limit implies confirmation on the label's own local day, so the age check of resume is as strict as the writer's |
| ClosedBarEvidence.PublishedRowsConfirmed | alor-rs-main/scripts/shadow_closed_bar_source.py:109-128 | In every run each published row was shown with one fingerprint by two responses at least 5 s apart, the first at least 5 s after the close; it is live exactly on regular days from activation on, and then confirmed within 90 s on the same local day |
| ClosedBarEvidence.AbsencesConfirmed | alor-rs-main/scripts/shadow_closed_bar_source.py:66-72 | In every run each recorded absence rests on two responses without the bar, at least 5 s apart, the first at least 90 s after the close, on a context-only day |
| ClosedBarEvidence.GapFileFits | alor-rs-main/scripts/shadow_closed_bar_source.py:323 | For every start day that a date can name and clock readings of up to a hundred digits, no run writes a gap file over one megabyte |
| ClosedBarEvidence.RestartAlways | alor-rs-main/scripts/shadow_closed_bar_source.py:291-334 | Under those bounds a dead process restarts if and only if there is no failure marker and something was published |
| ClosedBarSafety.WithinBudget | alor-rs-main/scripts/shadow_closed_bar_source.py:396-405 | A sound state holds at most 4141 rows and, since gaps lie on context-only days, 2255 gaps, so neither budget of 4500 is ever the reason to stop |
| ClosedBars.GapTextLength | alor-rs-main/scripts/shadow_closed_bar_source.py:71-72 | The canonical line of a gap has 166 characters beside its three times |
| ClosedBarSource.Source.PlanRequest | alor-rs-main/scripts/shadow_closed_bar_source.py:339-363 | The checks, due list and request window, computed by loops over the mutable maps, equal the specification of planning |
| ClosedBarSource.Source.HarvestBatch | alor-rs-main/scripts/shadow_closed_bar_source.py:372-390 | The confirmation loop over candidates and absences equals its specification, including where it breaks or raises |
| ClosedBarSource.Source.DueLabels | alor-rs-main/scripts/shadow_closed_bar_source.py:342-346 | The loop over days lists the due slots, day by day in order |
| ClosedBarSource.Source.RequestFrom | alor-rs-main/scripts/shadow_closed_bar_source.py:230-232 | The window starts at the least of two slots before the first pending one and the two newest published labels |
| ClosedBarSource.Source.ObserveRow | alor-rs-main/scripts/shadow_closed_bar_source.py:109-128 | One observation changes the remembered candidate, or proves the row, or raises, as specified |
| ClosedBarSource.ParseResponse | alor-rs-main/scripts/shadow_closed_bar_source.py:90-100 | The loop keeps the rows in the window and fails on a bad bar, a repeated time or an oversized response |
| ClosedBarSource.Source.AppendGapLines | alor-rs-main/scripts/shadow_closed_bar_source.py:395-402 | The gap lines reach file and memory one by one until the process dies or a budget stops it |
| ClosedBarSource.Source.AppendRowEntries | alor-rs-main/scripts/shadow_closed_bar_source.py:403-412 | The rows reach stream and memory one by one until the process dies or an append is refused |
| ClosedBarSource.Source.Fulfil | alor-rs-main/scripts/shadow_closed_bar_source.py:364-414 | From a response to the last append, an iteration equals its specification in every outcome |
| ClosedBarSource.Source.LoopOnce | alor-rs-main/scripts/shadow_closed_bar_source.py:338-422 | One iteration over the mutable fields and the two files, dying at any append, equals one step of the state machine |
| ClosedBarSource.Source.Recover | alor-rs-main/scripts/shadow_closed_bar_source.py:312-334 | Rebuilding the maps from the two files equals the specification of resume, refusals included |
| ClosedBarSource.Source.ReadStream | alor-rs-main/scripts/shadow_closed_bar_source.py:316-319 | Re-validating entry by entry returns the map of rows, or fails at the first bad one |
| ClosedBarSource.Source.ReadGaps | alor-rs-main/scripts/shadow_closed_bar_source.py:320-330 | Re-validating line by line returns the map of gaps, or fails on a duplicate, a conflict or an invalid gap |
| RiSafety.StepKeeps | alor-rs-main/scripts/shadow_state_parity/ri_reference.py:214-226 | One bar never raises, emits at most one action, keeps the invariant (MR and BO never both held, phase flat exactly when neither is, at most two MR entries, a pending exit only while BO is held) and moves the open position exactly as the action says |
| RiSafety.ActionsBracketed | alor-rs-main/scripts/shadow_state_parity/ri_reference.py:72-226 | Over every sequence of bars entries and exits alternate, each exit closing the component and side of the entry before it, and what the action stream leaves open is the position held |
| RiSafety.FlatByEleven | alor-rs-main/scripts/shadow_state_parity/ri_reference.py:172-226 | From every reachable state a bar at or after 23:00 leaves nothing held and nothing pending |
| RiCausality.BoEntriesCausal | alor-rs-main/scripts/shadow_state_parity/ri_reference.py:137-212 | Every BO entry is filled before 23:00 at the open of exactly the bar after the one whose signal ordered it, in the ordered direction |
| RiCausality.BoExitsCausal | alor-rs-main/scripts/shadow_state_parity/ri_reference.py:172-212 | Every BO exit is the close of a bar at or after 23:00, or the open of exactly the bar after the one whose close breached the stop that the exit names |
| RiForetold.SessionForetold | alor-rs-main/scripts/shadow_state_parity/ri_reference.py:72-226 | Over every session the actions of each bar are what an oracle tells from the context, the calendar, the earlier bars and the earlier actions, without the machine's state: who holds what since which bar, the MR exits and entries, the fills, the signals and the stops |
| RiForetold.OrdersExactly | alor-rs-main/scripts/shadow_state_parity/ri_reference.py:137-170 | While MR holds nothing, an order to enter stands after a bar, in a direction, if and only if the oracle wants one: session permitted, before 23:00, six bars earlier, nothing held, and either that side was filled before and the bar makes a new extreme, or it is an hour bar with a range over 1%, a return on the right side of 2.5% and a close beyond the furthest of level, sixth close and first extreme; long first |
| RiTotals.FillsCounted | alor-rs-main/scripts/shadow_state_parity/ri_reference.py:172-186 | The breakout total of a session is the number of its fills |
| RiTotals.HeldCounted | alor-rs-main/scripts/shadow_state_parity/ri_reference.py:187-212 | While a breakout is held its age is the number of bars since its fill, that bar included |
| RiLoss.ExitBounds | alor-rs-main/scripts/shadow_state_parity/ri_reference.py:79-117 | For valid bars a stop costs strictly between 0.89 and 1.0 of the previous range for longs and 0.55 and 0.75 for shorts, a take is strictly positive, break-even is zero, a time exit costs less than the range |
| RiLoss.StepTrades | alor-rs-main/scripts/shadow_state_parity/ri_reference.py:79-117 | One bar closes at most one MR trade, moves the entry count only with the position, and loses less than the previous range plus two points |
| RiLoss.SessionLoss | alor-rs-main/scripts/shadow_state_parity/ri_reference.py:72-117 | In any session of valid bars at most two MR trades close and their summed result, costs included, exceeds minus twice the previous range plus two points each; a single one loses less than the range plus two points |
| RiContext.ContextSound | alor-rs-main/scripts/shadow_state_parity/ri_reference.py:29-51 | The two anchors of a context are distinct complete days before the session, newest first, with positive, ordered prices |
| RiContext.BuildContext | alor-rs-main/scripts/shadow_state_parity/ri_reference.py:29-51 | The grouping and summarizing loops return the anchors of the two newest complete days of the warm-up |
| RiRoutes.ModelBarExact | alor-rs-main/scripts/shadow_state_parity/ri_reference.py:19-26 | A model bar closes on the ten-minute grid of a weekday, from the opening to 23:40, in seconds of the local day |
| RiRoutes.CountsExactly | alor-rs-main/scripts/shadow_state_parity/ri_reference.py:33-39 | A context counts model bars, and recovered ones only as the 23:40 bar where the policy admits them |
| RiRoutes.WarmupCounts | alor-rs-main/scripts/shadow_state_parity/ri_history.py:96-97 | That filter removes nothing from a warm-up drawn from items routed as context |
| RiRoutes.CompleteExact | alor-rs-main/scripts/shadow_state_parity/ri_reference.py:43-47 | A day is complete exactly with 80 bars, the first by 09:10 and the last from 23:30 on, and since 2026-07-14 with 92 bars, the first by 07:10 |
| RiRoutes.ContextExact | alor-rs-main/scripts/shadow_state_parity/ri_reference.py:29-51 | The first anchor describes the last complete day of the warm-up and the second the last but one, each missing exactly if there is none: highest high, lowest low, their difference, and the close of the latest bar |
| RiFreeze.FreezeIsOffline | alor-rs-main/scripts/shadow_state_parity/ri_history.py:91-98 | The warm-up frozen when a day is first observed equals everything the whole stream routes as context with an earlier date, whichever bar of the day comes first |
| RiFreeze.EarlyIsAll | alor-rs-main/scripts/shadow_state_parity/ri_history.py:96-97 | The filter on availability before the cutoff is implied by the route, on every weekday |
| RiFreeze.DaysNeverBack | alor-rs-main/scripts/shadow_state_parity/ri_history.py:88-98 | Days of observed bars never decrease along a valid stream, and a new day has no earlier observed bar |
| RiFreeze.OnlineEqualsOffline | alor-rs-main/scripts/shadow_state_parity/ri_history.py:82-107 | After every accepted prefix the online session of a day is the one built from the offline warm-up and stepped through exactly the bars observed that day |
| RiFreeze.RowsAreOffline | alor-rs-main/scripts/shadow_state_parity/ri_history.py:83-107 | Every output row reports the offline session state, route and observed flag of its item |
| RiRoutes.CutoffExact | alor-rs-main/scripts/shadow_state_parity/ri_history.py:25-29 | The cutoff of a day is the opening of the next weekday after it |
| RiRoutes.RouteExactly | alor-rs-main/scripts/shadow_state_parity/ri_history.py:32-43 | Each route is taken exactly under its own condition on grid, availability, origin, policy and closing time |
| RiRoutes.ObservedExactly | alor-rs-main/scripts/shadow_state_parity/ri_history.py:88-91 | An item is observed exactly if it is routed as context, came live, and closed and became available on one local day, no earlier than the first session |
| RiRoutes.StreamExact | alor-rs-main/scripts/shadow_state_parity/ri_history.py:56-69 | A stream passes the checks if and only if every item is admissible, each follows its predecessor, and there are as many times as items |
| RiToldRows.RowsForetold | alor-rs-main/scripts/shadow_state_parity/ri_history.py:82-107 | On every accepted prefix the row of an observed item carries exactly the actions the oracle tells from the day's context and calendar and from the bars and rows of that day so far |
| RiToldRows.PermissionExact | alor-rs-main/scripts/shadow_state_parity/ri_reference.py:68-135 | The state shown belongs to the last observed day and may trade exactly if both anchors exist, the day is neither a Friday (day mod 7 is 1) nor in the blackout, and, from the sixth bar on, that bar closed within one and a half previous ranges |
| RiToldRows.ForbiddenDays | alor-rs-main/scripts/shadow_state_parity/ri_reference.py:68 | On a Friday or in the blackout every row shows a session that may not trade and carries no breakout action |
| RiToldRows.ExpectedRowsTold | alor-rs-main/scripts/shadow_state_parity/ri_history.py:77-111 | In a successful replay all of this holds of every row of an observed item |
| RiFreeze.NeverUnresolved | alor-rs-main/scripts/shadow_state_parity/ri_history.py:72-110 | If the last observed bar of each day is at or after 23:00, no flatness check raises on any prefix |
| RiFreeze.ReplaySucceeds | alor-rs-main/scripts/shadow_state_parity/ri_history.py:77-111 | A valid stream with an observation, observed every day up to 23:00, is replayed to the end without an error |
| RiReference.Reference.Step | alor-rs-main/scripts/shadow_state_parity/ri_reference.py:214-226 | The object, updating its fields leg by leg, computes the specified new state and actions |
| RiReference.Reference.MrStep | alor-rs-main/scripts/shadow_state_parity/ri_reference.py:79-117 | The MR leg, updating position, count and phase, equals its specification |
| RiReference.Reference.Observe | alor-rs-main/scripts/shadow_state_parity/ri_reference.py:122-135 | The observation of ranges and levels equals its specification |
| RiReference.Reference.Schedule | alor-rs-main/scripts/shadow_state_parity/ri_reference.py:137-170 | Scheduling an order at the close equals its specification |
| RiReference.Reference.BoStep | alor-rs-main/scripts/shadow_state_parity/ri_reference.py:172-212 | The BO leg, filling, holding and scheduling, equals its specification, including where it raises |
| RiReference.WarmupFor | alor-rs-main/scripts/shadow_state_parity/ri_history.py:96-97 | The comprehension collects the admitted bars available before the cutoff on earlier dates, in order |
| RiReference.NextCutoff | alor-rs-main/scripts/shadow_state_parity/ri_history.py:25-29 | The loop over weekends finds the cutoff of the next weekday |
| RiReference.ValidateStream | alor-rs-main/scripts/shadow_state_parity/ri_history.py:58-69 | Checking each item against its predecessor and the times seen accepts exactly the streams ordered and unique as a whole |
| RiReference.ExpectedRows | alor-rs-main/scripts/shadow_state_parity/ri_history.py:77-111 | The replay loop over a mutable session returns the specified rows, or the specified error |
| RouterModel.LifeRefines | alor-rs-main/alor-gateway/src/router.rs:47-110 | For every life of a router, with the bars classified from the raw messages, per symbol: the live bars sent are exactly the completed ones (last update at a running maximum before a strictly newer bar), in order; the held bar is the newest update at the current maximum; bars of other origins pass unchanged and in order |
| RouterModel.ReceivedAt | alor-rs-main/alor-gateway/src/router.rs:172-188 | The k-th bar of message i enters the hold-back as it arrived, with the history origin of the last subscription time before i if there is one and the bar closes at or before it less two timeframes, and as live otherwise |
| RouterModel.LastSubscriptionExact | alor-rs-main/alor-gateway/src/router.rs:55-58 | The subscription in force is the last one received: every later message is a frame |
| RouterModel.LiveOutputRises | alor-rs-main/alor-gateway/src/router.rs:76-110 | Live bars leave in strictly increasing close time per symbol over the whole life, all older than the bar held |
| RouterModel.CompletedRising | alor-rs-main/alor-gateway/src/router.rs:83-107 | The completed updates of any sequence of bars rise strictly in close time |
| RouterModel.CompletedAfter | alor-rs-main/alor-gateway/src/router.rs:83-107 | One more bar completes the newest update exactly when it is strictly newer, and completes nothing else |
| Router.Router.OnFrame | alor-rs-main/alor-gateway/src/router.rs:74-111 | The loop over a frame's bars, origin by cutoff, extends the life by that frame |
| Router.Router.RouteBar | alor-rs-main/alor-gateway/src/router.rs:76-110 | One bar changes the hold-back map and the output as specified |
| Router.Router.UpdateSubscribeWallclock | alor-rs-main/alor-gateway/src/router.rs:55-58 | A subscription time moves the cutoff to two timeframes before it and extends the life accordingly |
| BarsSafety.RunKeeps | alor-rs-main/alor-gateway/src/supervisor.rs:768-844 | In every run, per symbol: received = emitted + dropped + buffered, the buffered counter is the buffer's length (its subtraction never saturates), emitted bars rise strictly over all origins, the emitted counter is their number, and both last-close maps hold the last emitted time |
| BarsSafety.FlushKeeps | alor-rs-main/alor-gateway/src/supervisor.rs:1348-1401 | A flush empties every buffer and keeps the books |
| BarsSafety.ReadyEmptiesBuffers | alor-rs-main/alor-gateway/src/supervisor.rs:781-951 | A held or emitted bar empties all buffers when everything is ready and the gap has not ended; otherwise a held bar only joins its own buffer and an emitted one only the output; a rejected bar changes neither, even when all is ready |
| BarsFlow.RunBuffersRise | alor-rs-main/alor-gateway/src/supervisor.rs:782-791 | When live bars arrive in rising order per symbol, every buffer rises and holds only bars that arrived |
| BarsFlow.SortIsIdentity | alor-rs-main/alor-gateway/src/supervisor.rs:1348-1350 | On such buffers the sort of the flush changes nothing |
| BarsFlow.FlushExact | alor-rs-main/alor-gateway/src/supervisor.rs:1348-1401 | A flush after any such run emits, symbol by symbol in name order, exactly the buffered suffix newer than the last emitted bar, cut where the consumer goes away, and leaves nothing buffered |
| BarsFlow.IterationFlushes | alor-rs-main/alor-gateway/src/supervisor.rs:768-951 | Whatever the router received, an iteration that is ready in a gap adds exactly that backlog to what the same iteration does when not ready; any other iteration adds nothing |
| BarsFlow.BacklogExact | alor-rs-main/alor-gateway/src/supervisor.rs:1354-1377 | The backlog holds exactly the buffered bars that close after their symbol's last emitted bar |
| BarsFlow.NewerExact | alor-rs-main/alor-gateway/src/supervisor.rs:1311-1321 | In a rising buffer that suffix holds exactly the bars that close after the last emitted one |
| BarsFlow.DeliverAllExact | alor-rs-main/alor-gateway/src/supervisor.rs:1359-1377 | A rising run of one symbol's bars is delivered from the first newer one on, as far as the consumer goes, and moves no other symbol's last emitted time |
| BarsFlow.RouterFeedsInOrder | alor-rs-main/alor-gateway/src/supervisor.rs:762-951 | Whatever the router received and however far the bars task has come, its input is in rising order per symbol, so all of the above holds of the two loops together |
| BarsChecked.ValidateExact | alor-rs-main/alor-gateway/src/data_quality.rs:219-256 | The validator accepts exactly the bars newer than the last emitted one that are closed, on the grid, finite, with extremes around open and close, volume not negative, and no disallowed doji |
| BarsChecked.ReasonExact | alor-rs-main/alor-gateway/src/data_quality.rs:219-256 | A bar is rejected for a reason if and only if it deserves that one, as stated of the bar alone, and none that ranks before it |
| BarsChecked.DropExact | alor-rs-main/alor-gateway/src/supervisor.rs:807-844 | A bar that is not held comes to exactly one of: a drop under the first reason it deserves, a failed emission if the consumer is gone, its emission |
| BarsChecked.EmittedWereChecked | alor-rs-main/alor-gateway/src/supervisor.rs:807-844 | In every run an emitted bar was well formed on arrival, unless it is a live bar that arrived during a gap |
| BarsChecked.FlushValidExactly | alor-rs-main/alor-gateway/src/supervisor.rs:1348-1401 | While the consumer has room, a flush after any run fed in order emits only well-formed bars if and only if every buffered bar that is not old for its symbol is well formed |
| BarsChecked.GapEndsCleanExactly | alor-rs-main/alor-gateway/src/supervisor.rs:903-937 | The same for the flush inside an iteration that ends a gap, whatever the router received |
| BarsChecked.FlushSkipsValidation | alor-rs-main/alor-gateway/src/supervisor.rs:1359-1377 | Any first live bar that arrives in a gap about to end is emitted, well formed or not |
| BarsTask.Task.SortedKeys | alor-rs-main/alor-gateway/src/supervisor.rs:1352-1353 | The buffered symbols in increasing order, each once |
| BarsChecked.OffGridBarEmitted | alor-rs-main/alor-gateway/src/supervisor.rs:1359-1377 | For example a bar that closes off the ten-minute grid |
| BarsTask.Task.OnBar | alor-rs-main/alor-gateway/src/supervisor.rs:768-951 | One iteration over the shared maps, buffers and counters equals one step of the specification |
| BarsTask.Task.FlushPendingLive | alor-rs-main/alor-gateway/src/supervisor.rs:1334-1401 | The flush loops over sorted symbols and bars equal the specification, for any consumer |
| BarsTask.Task.FlushSymbol | alor-rs-main/alor-gateway/src/supervisor.rs:1354-1399 | Taking out one symbol's buffer and delivering its bars equals the specification |
| BarsTask.Task.Deliver | alor-rs-main/alor-gateway/src/supervisor.rs:821-844 | Emitting and recording a bar, or recording why not, equals the specification |
| BarsTask.Task.EmitBar | alor-rs-main/alor-gateway/src/supervisor.rs:1306-1331 | A bar is refused as old exactly when it does not close after the last emitted one, else sent, and the last emitted time moves only if the send succeeds |
| DataReport.ReportedExactly | alor-rs-main/alor-gateway/src/data_quality.rs:159-201 | After any run a received symbol is reported exactly when frames were ignored for it, with a difference of minus their number |
| DataReport.TalliesExact | alor-rs-main/alor-gateway/src/data_quality.rs:80-139 | After any run a received counter is the number of the symbol's bars that reached the loop, and its ignored counters add up to its frames set aside |
| DataReport.ColumnsExact | alor-rs-main/alor-gateway/src/data_quality.rs:159-201 | A symbol is reported exactly if a bar of it was received and a frame of it set aside; the columns are then the bars received, the bars given to the consumer, the rest of those held no more, the frames set aside and the bars still held |
| DataReport.IgnoredFrameIsReported | alor-rs-main/alor-gateway/src/data_quality.rs:159-201 | One frame ignored and one bar received and emitted: the symbol is reported, one short |
| DataReport.BuildDataReport | alor-rs-main/alor-gateway/src/data_quality.rs:159-201 | The report loop lists each received symbol whose counters do not add up once, with its sums, and no other |
| DataReport.SumDropped | alor-rs-main/alor-gateway/src/data_quality.rs:167-172 | The filtered sum over drop entries, in any order, is the symbol's total over all reasons |
| DataReport.SumIgnored | alor-rs-main/alor-gateway/src/data_quality.rs:173-178 | The filtered sum over ignored entries, in any order, is the symbol's total over all reasons |
| BackfillPlan.ComputeBackfillPlan | alor-rs-main/alor-gateway/src/supervisor.rs:1268-1299 | The plan is warm iff there are symbols, each has a last emitted bar, and the gap from the earliest padded start is within the limit; then it carries that start and gap |
| BackfillPlan.PaddingExact | alor-rs-main/alor-gateway/src/supervisor.rs:1281 | A padded start lies the whole padding before the last emitted bar, or at zero if that would be negative |
| BackfillPlan.EarliestPadded | alor-rs-main/alor-gateway/src/supervisor.rs:1282 | The earliest start lies the whole padding before every last emitted bar and no further back than one of them needs |
| BackfillPlan.LimitIsHonest | alor-rs-main/alor-gateway/src/supervisor.rs:1287-1290 | With a limit below 2^63 the wrapped gap is within it exactly when the start is not in the future and the true gap is within it |
| BackfillPlan.HonestExactly | alor-rs-main/alor-gateway/src/supervisor.rs:1275-1290 | At a clock reading after 1970 the limit judges every start truly if and only if it does not exceed 2^63 plus the aligned reading |
| BackfillPlan.FutureStartAccepted | alor-rs-main/alor-gateway/src/supervisor.rs:1287-1298 | With the largest limit a start one bar in the future is planned warm |
| BackfillPlan.WarmIsSafe | alor-rs-main/alor-gateway/src/supervisor.rs:1275-1298 | Under such a limit a warm plan starts no later than any symbol's last emitted bar and than the aligned present, with the true gap within the limit |
| CwsRuns.OneReplyEver | alor-rs-main/alor-gateway/src/cws_client.rs:1525-1617 | In every run at most one reply is put on the channel of each accepted send; a reply or a dropped channel is final, and a transport failure carries the send's own guid and opcode |
| CwsAnswers.FateExact | alor-rs-main/alor-gateway/src/cws_client.rs:1521-1831 | The first event after a send that answers its guid, reuses it or ends the session gives its fate, for good; until then it is open |
| CwsAnswers.RepliesExact | alor-rs-main/alor-gateway/src/cws_client.rs:1521-1831 | In every run the channel of each send holds exactly what its fate says: one success or refusal, one failure about itself, or nothing |
| CwsAnswers.AnswersExact | alor-rs-main/alor-gateway/src/cws_client.rs:1680-1727 | A caller hears a success, or a refusal, if and only if the first event to decide its send is that answer to its guid in the session of the send |
| CwsModel.StepKeeps | alor-rs-main/alor-gateway/src/cws_client.rs:1525-1831 | Every event keeps the invariant: each accepted send is in flight, answered once, or abandoned, exactly one of the three, and requests in flight carry the guid and opcode of their own send |
| CwsRuns.RunGrows | alor-rs-main/alor-gateway/src/cws_client.rs:1525-1831 | Replies are only ever added to a channel and a dropped channel stays dropped |
| CwsRuns.FailureExact | alor-rs-main/alor-gateway/src/cws_client.rs:2104-2188 | A transport failure empties the pending map, puts one failure on each channel in flight, with its own guid and opcode, touches no other, and raises the failed total by their number |
| CwsRuns.FailedTotalExact | alor-rs-main/alor-gateway/src/cws_client.rs:2133-2136 | In every run the failed total is the number of reply channels that carry a transport failure |
| CwsCounters.CountersExact | alor-rs-main/alor-gateway/src/cws_client.rs:1319-1378 | In every run, per kind of control request: the send counter is the number of sends, the success counter the successes put on reply channels, the failure counter the refusals and transport failures put there, whether or not the caller still listens |
| CwsAnswers.CountersFromEvents | alor-rs-main/alor-gateway/src/cws_client.rs:1319-1378 | In every run, from the events alone: successes are the sends first decided by a successful answer, failures those first decided by a refusal or a loss, and sends are these and the open and forgotten ones |
| CwsRuns.BalanceExact | alor-rs-main/alor-gateway/src/cws_client.rs:1521-1640 | Sends equal successes plus failures plus pending if and only if no event so far reused a guid in flight of that kind, nor recycled or stopped a session with such a request in flight |
| CwsRuns.RecycleUnbalances | alor-rs-main/alor-gateway/src/cws_client.rs:1619-1640 | One send and a recycle: one send counted, no success, failure or request pending |
| CwsRuns.ReuseUnbalances | alor-rs-main/alor-gateway/src/cws_client.rs:1553-1567 | Two sends with one guid: two counted, one pending, nothing else |
| CwsRuns.FreshSessionsBalance | alor-rs-main/alor-gateway/src/cws_client.rs:1525-1617 | With fresh guids and no recycle or stop the counters balance in every run |
| CwsSession.Session.OnSend | alor-rs-main/alor-gateway/src/cws_client.rs:1529-1618 | Registering, counting and writing a request, with failure of everything in flight if the write fails, equals one step; the invariant holds after it |
| CwsSession.Session.OnAnswer | alor-rs-main/alor-gateway/src/cws_client.rs:1680-1727 | A response resolves exactly the pending request with its guid, or nothing |
| CwsSession.Session.OnLost | alor-rs-main/alor-gateway/src/cws_client.rs:1800-1827 | A close frame, a receive error or the end of the stream fails everything in flight; the invariant holds after it |
| CwsSession.Session.OnLeave | alor-rs-main/alor-gateway/src/cws_client.rs:1619-1641 | A recycle or a closed command channel ends the session and forgets everything in flight |
| CwsSession.Session.FailPendingWithTransport | alor-rs-main/alor-gateway/src/cws_client.rs:2104-2188 | Counting and draining together equal the specified failure of everything in flight |
| CwsSession.Session.DrainPending | alor-rs-main/alor-gateway/src/cws_client.rs:2176-2186 | The drain, in any order, leaves nothing pending and tells each waiting channel once |
| CwsSession.Session.CountFailures | alor-rs-main/alor-gateway/src/cws_client.rs:2143-2151 | The counting loop, in any order, raises each failure counter by the number of requests of its kind in flight |
| PermitModel.AdmittedExactly | alor-rs-main/alor-gateway/src/cws_client.rs:916-1027 | In every interleaving a send begins if and only if some earlier arming licenses it: same request and connection, within its window, with nothing but finishes since |
| PermitModel.OneShot | alor-rs-main/alor-gateway/src/cws_client.rs:1001-1008 | An arming licenses at most one send |
| PermitModel.RefusedExactly | alor-rs-main/alor-gateway/src/cws_client.rs:929-998 | Each refusal is given exactly under its own condition on the arming in force: none, another request, another connection, window over |
| PermitModel.UsedExactly | alor-rs-main/alor-gateway/src/cws_client.rs:1001-1008 | The permit counts as used exactly from a send that begins until the next arming or reset |
| PermitModel.ResultExact | alor-rs-main/alor-gateway/src/cws_client.rs:916-1045 | The result on display is the one of the last block: none after an arming or reset, the attempt, the expiry or the block after a begin, the ending after a finish |
| PermitModel.FinishesCounted | alor-rs-main/alor-gateway/src/cws_client.rs:1029-1045 | The success and failure totals are the numbers of finishes with that outcome |
| PermitModel.ReportExact | alor-rs-main/alor-gateway/src/cws_client.rs:832-844 | The connection and authorization on display are those of the last arming since the last reset |
| PermitModel.ArmedExactly | alor-rs-main/alor-gateway/src/cws_client.rs:832-844 | The permit is armed exactly while the last block other than a finish is an arming, and then is unused and carries every binding of that arming |
| PermitModel.NeverAlreadyUsed | alor-rs-main/alor-gateway/src/cws_client.rs:933-934 | No reachable state refuses a send as already used |
| PermitModel.AttemptsWithinArmings | alor-rs-main/alor-gateway/src/cws_client.rs:832-844 | Attempts plus one if armed never exceed armings; every begin is an attempt or a block, and attempts are exactly the admitted begins |
| ExitPermit.Health.BeginSend | alor-rs-main/alor-gateway/src/cws_client.rs:916-1027 | The checks and updates under the lock equal one begin block, success and each refusal included |
| ExitPermit.Health.Arm | alor-rs-main/alor-gateway/src/cws_client.rs:825-847 | Arming binds the request, connection, window and time and counts itself |
| ExitPermit.Health.FinishSend | alor-rs-main/alor-gateway/src/cws_client.rs:1029-1045 | Finishing records the result and touches no binding |
| ExitPermit.Health.ResetState | alor-rs-main/alor-gateway/src/cws_client.rs:1291-1303 | Losing authorization clears every permit field and no counter |
| StalePath.StaleExactly | alor-rs-main/alor-gateway/src/health.rs:223-270 | The path is stale exactly when the test is on and the last send or the last success is over the limit, and the time reported is the excess |
| StalePath.ReasonExact | alor-rs-main/alor-gateway/src/health.rs:243-258 | An old success is named before an old send, and an old send is named apart when nothing has succeeded |
| StalePath.RecycleCuresExactly | alor-rs-main/alor-gateway/src/cws_client.rs:1487-1511 | A new session cures staleness if and only if the last success, if any, is recent enough |
| StalePath.RecycleDoesNotCure | alor-rs-main/alor-gateway/src/cws_client.rs:1487-1511 | A success a millisecond over a fifteen-minute limit keeps a path stale that has just been recycled |
| StalePath.OnlySuccessCures | alor-rs-main/alor-gateway/src/health.rs:244-258 | Once the last success is too old no number of new sessions and sends makes the path fresh again |
| TraceSafety.RecognizedExactly | alor-rs-main/scripts/shadow_state_parity/compare.py:234-265 | A finished trace is accepted if and only if it is one complete block per manifest input, in order, each in one of the two phase orders, with contiguous sequence numbers and rows that match their input |
| TraceSafety.AcceptedProgress | alor-rs-main/scripts/shadow_state_parity/compare.py:239-260 | An accepted row opens the next block after a complete one or extends the last, for the right input |
| TraceSafety.BlockAccepted | alor-rs-main/scripts/shadow_state_parity/compare.py:239-260 | Every prefix of the next complete block is accepted, row by row |
| TraceSafety.CertifiedAligned | alor-rs-main/scripts/shadow_state_parity/compare.py:268-292 | Two traces that pass have equal length, between three and four rows an input, and the same phases block by block |
| TraceSafety.CertifiedExactly | alor-rs-main/scripts/shadow_state_parity/compare.py:268-292 | A comparison passes if and only if the manifest and the checksum are in order, each trace is one complete block per input, and row by row phases agree and states compare equal |
| TraceSafety.ManifestExact | alor-rs-main/scripts/shadow_state_parity/compare.py:212-228 | A manifest is in order exactly with the known version and schema, as many distinct input names as inputs, at least one, their checksum, the ten identity fields and the one certified kind of evidence |
| TraceValues.FloatFreeIsExact | alor-rs-main/scripts/shadow_state_parity/compare.py:187-206 | Without floats in the schema, comparison is equality |
| TraceValues.LeavesExact | alor-rs-main/scripts/shadow_state_parity/compare.py:187-206 | Two numbers compare equal exactly within one part in a hundred million, and two whole numbers exactly if they are the same; what each leaf of a schema admits |
| TraceValues.ComparedAgree | alor-rs-main/scripts/shadow_state_parity/compare.py:187-206 | Values that compare equal agree on everything but floats |
| TraceValues.CompareSymmetric | alor-rs-main/scripts/shadow_state_parity/compare.py:187-206 | Comparison is reflexive and symmetric on validated values |
| TraceValues.TransitiveExactly | alor-rs-main/scripts/shadow_state_parity/compare.py:187-206 | Comparison under a schema is transitive if and only if the schema has no float, and exactly then is it equality |
| TraceValues.FloatsDrift | alor-rs-main/scripts/shadow_state_parity/compare.py:202-204 | A float anywhere in a schema yields three values of the whole schema, each close to the next, the first not to the last |
| TraceCoverage.Coverage.Accept | alor-rs-main/scripts/shadow_state_parity/compare.py:239-260 | The row-by-row checks over the mutable index, phases and count equal one step of the recognizer, error for error |
| TraceCoverage.Coverage.Finish | alor-rs-main/scripts/shadow_state_parity/compare.py:262-265 | After any accepted rows, finishing succeeds, with their number, if and only if they divide into one complete block per input |
| TraceCoverage.CompareTraces | alor-rs-main/scripts/shadow_state_parity/compare.py:268-292 | The zipped loop passes exactly the pairs of traces that are certified: checksum, manifest, both recognized, equal length, rows equal under the schema |
| AttemptRuns.RunGood | alor-rs-main/scripts/reaction_shadow_service.py:61-139 | Over every history of creations, resumptions, stops and crashes attempts are numbered 1..k, k at most 128, all but the last clean; constructing without starting leaves no trace |
| AttemptRuns.ResumeExactly | alor-rs-main/scripts/reaction_shadow_service.py:96-125 | A resume succeeds if and only if nothing holds the lock, the manifest is unchanged, every attempt so far ended by an operator stop that can be read back, and fewer than 128 were made |
| AttemptRuns.DeadExactly | alor-rs-main/scripts/reaction_shadow_service.py:61-139 | In every history the log is dead, with its last attempt unclean and no process, if and only if some attempt ended badly |
| AttemptRuns.NeverAgain | alor-rs-main/scripts/reaction_shadow_service.py:105-125 | Once an attempt has crashed, failed, been torn or stopped otherwise than by a readable operator stop, no later event of the history constructs or counts another |
| AttemptRuns.DeadForever | alor-rs-main/scripts/reaction_shadow_service.py:112-121 | A log whose last attempt is not clean admits no attempt ever again, whatever follows |
| AttemptRuns.StepKills | alor-rs-main/scripts/reaction_shadow_service.py:130-139 | From a live log exactly these events kill: a started attempt ends without a stop file, with a torn one, one over 64 KiB or one for another reason than an operator stop, or dies once its start file exists |
| AttemptRuns.OversizedStopIsFatal | alor-rs-main/scripts/reaction_shadow_service.py:35-42 | For example a log whose first attempt ends in a clean operator stop with an oversized stop file is dead |
| AttemptRuns.LimitsExact | alor-rs-main/scripts/reaction_shadow_service.py:105-124 | Any number of clean attempts up to 128 can be made; after 128 the directory holds 258 files and no further one can be constructed |
| AttemptModel.ScanExact | alor-rs-main/scripts/reaction_shadow_service.py:105-125 | An arbitrary directory permits attempt k+1 if and only if it records exactly k clean attempts and nothing else, k below 128; the entry limit is implied |
| AttemptModel.ScanOutcome | alor-rs-main/scripts/reaction_shadow_service.py:105-125 | For every directory: bad over 258 entries or with an irregular one; otherwise the attempt after the leading clean ones decides: incomplete without a stop file, not resumable with one, else next below 128 if nothing else is there, else excessive |
| AttemptModel.FullIsExcessive | alor-rs-main/scripts/reaction_shadow_service.py:122-123 | After 128 clean attempts a log is refused as excessive, not as oversized |
| AttemptLog.NextAttempt | alor-rs-main/scripts/reaction_shadow_service.py:110-124 | The loop over numbered pairs returns the next attempt, or the first fault, as specified |
| AttemptLog.ReadEntries | alor-rs-main/scripts/reaction_shadow_service.py:105-109 | Listing the directory in any order fails exactly beyond 258 entries or at an irregular one |
| AttemptLog.Supervisor.Publish | alor-rs-main/scripts/reaction_shadow_service.py:61-68 | A file is created only if absent; a death leaves nothing, a torn file or a whole one |
| AttemptLog.Supervisor.Create | alor-rs-main/scripts/reaction_shadow_service.py:91-128 | Creating the directory, lock and manifest equals one step of the log, wherever it dies |
| AttemptLog.Supervisor.Begin | alor-rs-main/scripts/reaction_shadow_service.py:130-134 | Publishing the start file equals one step of the log |
| AttemptLog.Supervisor.Finish | alor-rs-main/scripts/reaction_shadow_service.py:136-142 | Publishing the stop file and closing equals one step of the log |
| AttemptLog.Supervisor.Resume | alor-rs-main/scripts/reaction_shadow_service.py:96-128 | Resuming over the mutable directory equals one step of the log |

## Left out

- Transport: HTTP, Redis protocol, WebSocket, OAuth and tokens, file descriptors, signals and timers appear only as arbitrary inputs or append-only logs.
- JSON parsing and canonical serialization, payload builders, logging, metrics and the health page.
- SHA-256: a fingerprint is an arbitrary function of the row, of the input list or of the trace; nothing is assumed about collisions.
- Floating-point rounding: prices and trace numbers are reals; bars in the gateway keep the non-finite values apart.
- Publisher, configuration and manifest: `validate_config`, the writer lock and the manifest comparison precede the modelled run; any start day, activation day and set of excluded days is allowed.
- Publisher, gap file: an append is atomic; a line torn by a power failure would be refused by the JSON parser at resume.
- Publisher, stream: entries have the one payload field by construction, and `time.sleep` and the stop signal only end or delay iterations.
- RI machine: branch names reported for tracing are not part of the state; the summer blackout is a set of days, and a ratio with a zero denominator, which valid anchors exclude, is fixed to zero.
- RI replay: one symbol and one policy at a time; the identity, count and hash fields of a fixture are not modelled.
- Integer widths: counters and times are unbounded, except in the backfill plan, where saturation and the signed cast are written out.
- Instruments are numbered in the order of their names.
- Router: trades, positions, orders and authentication errors, which share the loop but not its bar state.
- Bars task: progress messages, the count of gap bars, the positions, orders and subscription readiness behind the one readiness flag, and the phase transitions themselves; the consumer is a number of bars accepted before it goes away.
- Data report: the order of its lines and of its drop entries, which follows hash order and counts.
- BackfillPlan.ComputeBackfillPlan: the timeframe is required positive, as the division in the original demands; the subtraction of the padding is unbounded.
- Command session: authorization, recent-frame rings, pending summaries and time stamps; requests queued while no session is up wait outside the model. The health fields that the ledger calls abandoned do not exist in the gateway.
- Exit permit: that armed implies authorized is not claimed, since the readiness snapshot and the arming take the lock separately. The permit fields of the health state are grouped into three records.
- Trace gate: rows carry the fields that the recognizer reads and one value for the rest of the schema; reading compressed lines is a sequence of rows.
- Attempt log: the manifest and start files are always short enough to be read back; directory entries that are links or not regular are one irregular content; the worker protocol of `supervise` is reduced to whether and with which reason a stop file is written.
- Configuration, source tracking, the scheduler, order and position managers, strategies and the pandas scripts.
