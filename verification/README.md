# TraderBot order pipeline: a Dafny model

TraderBot takes an order from risk approval through an append-only intent ledger and an execution engine to a
venue, and brings fills back to risk. A kill switch with a dead man's switch can stop it, a reconciler compares its
positions with the venue's, and a backtester replays strategies through the same risk checks. This project models
those parts and proves what whole runs of them keep.

Each part has two layers. A layer of values and step functions says what an operation does to the state; the
theorems about runs are about this layer, and the main ones name the fields of the state and the constants of the
program, not the step functions. Where the program updates objects in place, a class with the program's
fields has methods proved to make exactly those steps.

| part | values, steps and theorems | objects |
|---|---|---|
| exposure and intent ledger | `Exposure`, `Ledger` (module `IntentLedger`), `AppendRace` | `ExposureState`, `Ledger` |
| execution engine and its tables | `Books`, `BooksAgree`, `BooksSteps`, `EngineRuns`, `EngineRecords`, `CrashRecovery`, `CrashRuns` | `Engine` (module `ExecutionEngine`) |
| kill switch and heartbeats | `KillSwitch`, `KillSwitchRuns`, `KillSwitchLog`, `KillSwitchRows`, `Heartbeat`, `TradingHalt`, `DeadMansHalt` | `Watchdog` |
| mock exchange | `Exchange` | `MockExchange` |
| fills back to risk, reconciliation | `RiskPositions`, `DailyStats`, `Recon`, `Fates`, `Pipeline` | `RiskEngine` (module `RiskEngineObject`) |
| rate limits | `RateLimits` | `RiskEngine` |
| backtest | `Ticks`, `Metrics`, `Backtest`, `BacktestQuotes`, `BacktestRuns` | `BacktestRunner` |

`Orders`, `Intents` and `Modes` hold the shared entities, `Uuids` the spellings a UUID column takes and gives back,
`Sums` the algebra of sums.

## What the runs assume

- Database writes succeed, except for the constraints and crashes that are modelled.
- Operations run one at a time, except in `AppendRace`, `Exchange`, `Pipeline` and, for orders in flight, `TradingHalt`.
- Clocks do not go backwards. Clock readings, random draws, venue answers, new identifiers and the outcome of risk
  checks that are not modelled are parameters, so every theorem holds for all of them.
- A row's position in the intents table stands for its identifier and version. An order row keeps the trace as it was
  sent, which is how the key column has it; what the trace column gives back is computed where the row is read.
- Prices, notionals and sums are unbounded integers; percentages and drawdowns are reals. Contract counts wrap at
  32 bits in the exposure state and in the backtest.
- A fresh run starts from empty tables in mode normal.

## What the proofs found

- The `orders` table has its UNIQUE constraint on `idempotency_key`, which is the trace joined with strategy, venue,
  market, side and price (migrations/001_initial.up.sql:45), not on the trace; `trace_id` is a UUID column there and
  text in the intents table. A trace used again under another key, or a text the column refuses, breaks the bijection
  of open orders and outstanding intents; a UUID in another spelling breaks it at the next restart, which looks the
  intent up in the canonical spelling. `EngineRuns.SubmitKeepsExactlyWhen` and
  `EngineRuns.SubmitSurvivesRestartExactlyWhen` give the exact conditions and `EngineRuns.ReusedTraceBreaks` a failing
  family. The runs below have canonical traces and one key for each.
- A restarted engine is in mode normal, passes reconciliation and takes orders until the watchdog next tells it a
  mode, whatever halts are active; an order opened then stays open when the mode arrives, because only a trigger
  cancels. Without any restart, an order that the venue has acknowledged and the engine has not yet put among its open
  orders is not cancelled by a trigger either. `TradingHalt.HaltClosesGatesExactlyWhen` and
  `TradingHalt.HaltEmptiesBooksExactlyWhen` say exactly when halts are obeyed; `TradingHalt.RestartReopens`,
  `TradingHalt.StrayOutlivesPush` and `TradingHalt.FlightOutlivesTrigger` are the failing runs.
- A row inserted by a submit has no exchange id until the venue's answer is recorded. `LoadOpenOrders` scans the
  column into a plain string, so after a crash in that window it fails: `CrashRecovery.CrashLoadsExactlyUnless`, and
  over whole runs of crashes `CrashRuns.CrashRunsLoadExactlyUnless`.
- A retry of a submit that died after writing its intent goes out on the old intent even if it is another order of that
  key and trace: `CrashRuns.RetryLosesNothingExactlyWhen`.
- The venue acknowledges an order before the engine has it among its open orders, so a fill polled in between is lost
  although nobody cancelled the order, and the order never fills up: `Pipeline.FillCanBeMissed`,
  `Pipeline.MissesExactlyWhen`, `Pipeline.FillsUpExactlyWhen`.
- The average fill price is not among the columns that are loaded, so a restart loses it, and the next update writes 0
  over the row's: `EngineRuns.AverageKeptExactlyWhen`, `EngineRuns.RestartErasesAverage`.
- A restarted watchdog remembers no beat and blames every critical service that has not beaten again by its first tick:
  `DeadMansHalt.BlamedExactlyWhen`.
- A kill-switch level other than the three known ones is held as an active halt and stops nothing. Only a caller of
  `Trigger` inside the process can pass one: services/watchdog/grpc_server.go:28 refuses it, and the heartbeat monitor
  and the reconciler pass constants.
- The query that reloads halts has no ORDER BY. `KillSwitchLog.AnyOrderExactlyWhen` says for which tables the row
  order cannot matter, `KillSwitchRows.OrderKeepsModeExactlyWhen` which orders keep the mode. No order opens the gates.
- `RemoveIntent` deletes a group whose 32-bit quantity has wrapped to zero or below, and keeps one that has no intent
  left and wrapped above: `Exposure.RemoveExactlyWhen` is the exact condition.
- Risk joins position keys with ':' and does not escape it, so two accounts can share one key and one fill moves
  both rows: `RiskPositions.KeySharedExactlyWhen`, `RiskPositions.NetMovesExactlyWhen`.
- The fill poll asks again from the start of the previous poll, so fills may be handed over twice and are then counted
  twice: `MockExchange.PollOverlapExactly`, `Pipeline.ReconciliationExactly`.
- The mock exchange fills an order of quantity zero with a fill of zero: `Exchange.ZeroOrderFillsZero`.
- In a backtest a sell of negative quantity, and no other signal, can push a position over its limit:
  `BacktestRuns.SignalKeepsLimitExactlyWhen`.
- On a curve that goes below zero the running peak misses larger falls from lower points:
  `Metrics.PairWithinExactlyWhen`.

## Model

| member | source | states |
|---|---|---|
| `Orders.TerminalIsLast` | internal/models/order.go:30-56 | along every legal history of statuses a terminal one can only come last, progress never falls, only partially_filled can repeat, and the terminal statuses are exactly those without a successor |
| `Orders.TransitionExactly` | internal/models/order.go:30-56 | the edges of the status graph, one by one |
| `Orders.KeySharedByExactly` | internal/models/order.go:100-102 | for texts without a colon two orders have one key if and only if strategy, venue, market, side and price are the same |
| `Orders.KeyOfSample` | internal/models/order.go:100-102 | the key of one order, letter by letter |
| `Exposure.ReplayIsGrouped` | internal/ledger/ledger.go:174-201 | for every table the replay fold equals the grouped sums of outstanding rows, entry by entry (quantities modulo 2^32) and in total |
| `Exposure.ReplayInAnyOrder` | internal/ledger/exposure.go:96-102 | replaying the rows in any order gives that same exposure, with the total equal to the sum of outstanding notionals |
| `Exposure.TotalOfGroups` | internal/ledger/ledger.go:174-201 | the total is the sum of the group notionals |
| `Exposure.RemoveGrouped` | internal/ledger/exposure.go:78-92 | with positive quantities and no overflow, removing an applied intent gives the exposure of the rest, whatever status the intent has by then |
| `Exposure.RemoveExactlyWhen` | internal/ledger/exposure.go:78-92 | for every ledger, removing an outstanding intent leaves the exposure of the others if and only if the wrapped quantity left at its market side is positive exactly when an intent is left there |
| `Exposure.TracksExactlyWhen` | internal/ledger/exposure.go:64-92 | over every sequence of applies and removals of applied intents, the state is the grouped sums throughout if and only if every removal meets that condition |
| `Exposure.CountableIsLegal` | internal/ledger/exposure.go:64-92 | positive quantities that stay within int32 meet it at every removal |
| `Exposure.IncrementalIsReplay` | internal/ledger/exposure.go:64-102 | after every interleaving of ApplyIntent with removals that meet the condition, the state equals the replay of what remains, in any order, and the total is the sum of the entries |
| `Exposure.OverflowLosesExposure` | internal/ledger/exposure.go:78-92 | an input where quantities overflow: removing one of three intents drops the whole group although two are outstanding |
| `Exposure.WrapExactly` | internal/ledger/exposure.go:64-92 | quantities are cut to the int32 value that differs by a multiple of 2^32 |
| `Exposure.ExposureState.CheckInvariant` | internal/ledger/exposure.go:40-61 | accepts exactly when the notional held for the market and side, and the total, plus the intent's stay within the limits that are positive |
| `Exposure.ExposureState.ApplyIntent` | internal/ledger/exposure.go:64-74 | a pending or open intent adds its quantity, in int32, and its notional to its market side and its notional to the total; any other changes nothing |
| `Exposure.ExposureState.RemoveIntent` | internal/ledger/exposure.go:78-92 | takes them away from a group that is there, which is deleted once its quantity is not positive |
| `Exposure.ExposureState.ReplayFromIntents` | internal/ledger/exposure.go:96-102 | a fresh state equal to the grouped sums of the intents |
| `IntentLedger.LookupIs` | internal/ledger/ledger.go:120-128 | where traces are unique the lookup by a row's trace finds that row |
| `IntentLedger.AppendKeepsEnvelope` | internal/ledger/ledger.go:36-96 | an Append that runs alone keeps exposure within the limits per market side and in total |
| `IntentLedger.StatusKeepsEnvelope` | internal/ledger/ledger.go:100-117 | a status update keeps it too |
| `IntentLedger.GroupsReadAll` | internal/ledger/ledger.go:174-201 | reading the group rows in any order gives the grouped exposure |
| `IntentLedger.Ledger.Append` | internal/ledger/ledger.go:36-96 | validates, returns the existing row for a known trace, else adds a pending row with the order and signature exactly when the limits allow; traces stay unique, other rows stay as they were |
| `IntentLedger.AppendExactly` | internal/ledger/ledger.go:36-96 | an append adds a row if and only if all columns are set, no row has the trace and the notional of the pending and open rows plus its own stays inside both positive limits; it answers with an old row if and only if the columns are set and the trace is that row's |
| `IntentLedger.Ledger.UpdateStatus` | internal/ledger/ledger.go:100-117 | changes the status, and nothing else, of a row that is pending or open, and says whether it did |
| `IntentLedger.Ledger.GetByTraceID` | internal/ledger/ledger.go:120-128 | finds the row with the trace, if there is one |
| `IntentLedger.Ledger.ComputeExposure` | internal/ledger/ledger.go:174-201 | a fresh state equal to the grouped sums of the outstanding rows |
| `AppendRace.RaceOvershoot` | internal/ledger/ledger.go:41-78 | with check and insert as separate steps and at most k calls in between, each of notional at most N, exposure per market side and in total never exceeds a positive limit by more than (k-1)*N; for k = 1 it never exceeds it |
| `AppendRace.OvershootReached` | internal/ledger/ledger.go:41-78 | for every k and N some run attains that bound |
| `BooksAgree.Bijection` | services/execution/engine.go:237-311 | the invariant includes that intentMap is a one-to-one map of the open orders onto the outstanding intents of the same order |
| `BooksAgree.ExposureIsOpenOrders` | services/execution/engine.go:237-311 | so ledger exposure per market side and in total is the summed notional of the open orders |
| `BooksAgree.NothingOpenNothingExposed` | services/execution/engine.go:368-383 | so without open orders there is no outstanding exposure |
| `EngineRuns.SubmitKeeps` | services/execution/engine.go:210-330 | a submit keeps the whole invariant, whatever the venue answers, if it is turned away early or its trace is a canonical UUID that is new or comes with its old key |
| `EngineRuns.SubmitKeepsExactlyWhen` | services/execution/engine.go:237-311 | it keeps the bijection for every answer if and only if it is turned away early or its trace is a text the UUID column takes that is new or comes with its old key |
| `EngineRuns.SubmitSurvivesRestartExactlyWhen` | services/execution/engine.go:91-142 | it keeps it also over a restart if and only if, besides, the trace is in the canonical spelling |
| `EngineRuns.OtherSpellingLost` | services/execution/engine.go:91-142 | a new trace in another spelling leaves, after a restart, an outstanding intent that no order owns |
| `Uuids.ColumnIsUuid` | migrations/001_initial.up.sql:11 | whatever spelling the trace column takes comes back in the canonical one |
| `Uuids.UuidIsItsColumn` | migrations/001_initial.up.sql:11 | the canonical spelling is taken and comes back unchanged |
| `Uuids.PlainDigitsTaken` | migrations/001_initial.up.sql:11 | 32 hexadecimal digits in either case without hyphens are taken and come back canonical |
| `Uuids.BracesTaken` | migrations/001_initial.up.sql:11 | a spelling that is taken without braces is taken in braces too and comes back the same |
| `EngineRuns.SubmitStopsEarly` | services/execution/engine.go:221-281 | a submit with such a trace that does not reach the venue writes nothing |
| `EngineRuns.BadTraceLeaks` | services/execution/engine.go:237-281 | a trace the UUID column refuses leaves an outstanding intent that no order owns |
| `EngineRuns.ReuseBreaks` | services/execution/engine.go:237-311 | a known trace under a new key that the venue accepts breaks the bijection |
| `EngineRuns.ReusedTraceBreaks` | migrations/001_initial.up.sql:45 | from the fresh state two submits of one trace under two keys break it |
| `EngineRuns.ReusedTraceExample` | internal/models/order.go:100-102 | such a pair exists: one trace at two prices |
| `EngineRuns.CancelKeeps` | services/execution/engine.go:333-365 | a cancel keeps the invariant |
| `EngineRuns.CancelAllKeeps` | services/execution/engine.go:368-394 | CancelAll keeps the invariant and leaves nothing open, in whatever order it visits the orders |
| `EngineRuns.FillKeeps` | services/execution/engine.go:412-478 | a partial or completing fill, or one that matches nothing, keeps the invariant |
| `EngineRuns.RestartRebuilds` | services/execution/engine.go:91-142 | between operations LoadOpenOrders succeeds and rebuilds the same open orders, on the loaded columns, and the same intentMap |
| `EngineRuns.AverageKeptExactlyWhen` | services/execution/engine.go:91-142 | a restart gives back the whole memory if and only if no open order has an average fill price |
| `EngineRuns.PartialFillSetsAverage` | services/execution/engine.go:440-478 | a partial fill of any open order sets one, which a restart then loses |
| `EngineRuns.RestartErasesAverage` | services/execution/engine.go:503-531 | the next update of an order after a restart writes 0 over the row's average; the row is the one without the restart if and only if there was none |
| `EngineRuns.RestartKeeps` | services/execution/engine.go:91-142 | a restarted engine satisfies the invariant |
| `EngineRuns.FreshRunAgrees` | services/execution/engine.go:237-311 | after every fresh run, restarts included: the bijection holds, the illegal-transition branch was never taken, exposure is within the limits and equals the open notional per market side and in total |
| `EngineRecords.SubmitExactly` | services/execution/engine.go:210-311 | a submit under a canonical trace that names one order leaves row, intent and memory with every column the venue's answer calls for if the approval is authentic and approved, the engine reconciled and in mode normal, the columns are set, the trace is new and the order fits beside what is open; else it changes nothing |
| `EngineRecords.RowsComeFromApprovals` | services/execution/engine.go:210-311 | in every state of every fresh run each order row and intent row comes from a submit that was placeable in this sense when it was made, with that approval's order, signature, policy and time, and the status and exchange id its venue answer calls for |
| `EngineRecords.PlacedExactlyWhen` | services/execution/engine.go:210-281 | over every fresh run an id has an order row if and only if a placeable submit used it |
| `EngineRecords.StatusesAndFillsTied` | services/execution/engine.go:283-478 | in every state of every fresh run the order's status decides that of the intent of its trace (open or partly filled, filled, cancelled, failed or rejected), and each order has filled the sum of its fill rows, an amount its status allows |
| `EngineRecords.FillsTableIs` | services/execution/engine.go:412-440 | over every fresh run the fills table lists the positive fills handed over with a match, in order, with order, quantity and price |
| `EngineRecords.CancelExactly` | services/execution/engine.go:333-354 | a cancel ends row and intent of that order as cancelled, keeps what was filled, and touches nothing else |
| `EngineRecords.LastFillExactly` | services/execution/engine.go:440-464 | a fill that reaches the order's quantity ends row and intent as filled at the fill's price, with its fill row, and touches nothing else |
| `EngineRecords.PartFillExactly` | services/execution/engine.go:440-466 | an earlier fill adds its quantity and sets its price in row and memory alike, with its fill row, and leaves the intent |
| `ExecutionEngine.Engine.SubmitOrder` | services/execution/engine.go:210-330 | asks the venue only for an authentic, approved approval while reconciled and in mode normal, and without these changes nothing; otherwise makes exactly the Submit step, and returns the record with the approval's columns and the answer's status exactly if the venue answers |
| `ExecutionEngine.Engine.CancelOrder` | services/execution/engine.go:333-365 | succeeds exactly for an open order the venue agrees to cancel, and then takes just that order out of memory; the tables make exactly the Cancel step |
| `ExecutionEngine.Engine.CancelAll` | services/execution/engine.go:368-394 | cancels each open order once, in some order, and ends with none |
| `ExecutionEngine.Engine.HandleFill` | services/execution/engine.go:412-492 | takes an open order with the fill's exchange id if there is one; a positive fill of such an order adds its row to the fills table and is reported to risk, any other does neither; the rest is exactly the ProcessFill step |
| `ExecutionEngine.Engine.TransitionOrder` | services/execution/engine.go:503-531 | moves the record and its row along a legal transition and otherwise changes nothing but the count of illegal ones |
| `ExecutionEngine.Engine.LoadOpenOrders` | services/execution/engine.go:91-142 | succeeds exactly when no non-terminal row lacks an exchange id, and then holds the loaded orders and intents; tables unchanged |
| `CrashRecovery.WriteKeepsSafe` | services/execution/engine.go:267-311 | every single write keeps a backing outstanding intent for each non-terminal order row |
| `CrashRecovery.StepWritesAreAll` | services/execution/engine.go:237-461 | the listed writes of each operation add up to its effect on the tables |
| `CrashRecovery.ReplayCoversOrders` | services/execution/engine.go:147-172 | where every live row is backed, replayed exposure is at least the live rows' notional |
| `CrashRecovery.CrashNeverUndercounts` | services/execution/engine.go:267-311 | a fresh run stopped at any write inside submit, cancel, cancel-all or fill: every non-terminal row still has its outstanding intent, and replayed exposure is no less than the live notional per market side and in total |
| `CrashRecovery.CrashLoadsExactlyUnless` | services/execution/engine.go:91-142 | from every state that can be loaded, whatever crashes led to it, LoadOpenOrders works after a death inside any operation if and only if that was not between a submit's order insert and the recorded answer |
| `CrashRecovery.RetryCompletesSubmit` | services/execution/engine.go:237-311 | a submit that died after writing its intent, retried after a restart, ends exactly as an uninterrupted one |
| `CrashRuns.CrashRunsNeverUndercount` | services/execution/engine.go:91-311 | the same over every run with any number of deaths at any writes, restarts and retries of the same order in between; and between operations LoadOpenOrders always works |
| `CrashRuns.CrashRunsLoadExactlyUnless` | services/execution/engine.go:91-142 | the same condition at every write of every operation of every such run, retries on an old intent included |
| `CrashRuns.RetryLosesNothingExactlyWhen` | services/execution/engine.go:237-281 | in every state of such runs, a retry of a trace that left an intent and no order loses nothing if and only if it is the order of that intent |
| `CrashRuns.RetryCoveredExactlyWhen` | services/execution/engine.go:237-281 | on a database with that intent alone, replayed exposure covers the retry per market side and in total if and only if it is for the same market side and not larger |
| `KillSwitch.ModeIsMaximum` | services/watchdog/killswitch.go:323-355 | the mode has the maximum severity of the active halts |
| `KillSwitch.ModeFromRanks` | services/watchdog/killswitch.go:323-342 | and is the only mode that does, so iteration order cannot matter |
| `KillSwitch.ModeExactly` | services/watchdog/killswitch.go:323-342 | full stop exactly if some halt is a full stop, cancel only exactly if none is and some halt is cancel only, normal exactly if all levels are unknown |
| `KillSwitch.SeverityExactly` | services/watchdog/killswitch.go:344-355 | which of two levels is the more severe |
| `KillSwitchRuns.AckedSinceTrigger` | services/watchdog/killswitch.go:118-253 | a halt shown as acknowledged carries person, cause and time of a call that acknowledged it after its scope's last effective trigger |
| `KillSwitchRuns.RecordsNameTheirCalls` | services/watchdog/killswitch.go:118-253 | in every run each halt and each event row carries level, reason, person and time of the call that triggered it and, if and only if it shows as acknowledged, person, cause and time of a later call that acknowledged it |
| `KillSwitchRuns.ResumeNeedsAck` | services/watchdog/killswitch.go:256-271 | in every run each successful Resume comes after an Acknowledge of the scope that is later than its last effective Trigger |
| `KillSwitchRuns.LevelsRise` | services/watchdog/killswitch.go:118-141 | between resumes each effective trigger of a scope is strictly more severe than the one before |
| `KillSwitchRuns.SeverityStays` | services/watchdog/killswitch.go:118-141 | until a resume the scope stays halted at least as severely as any effective trigger asked |
| `KillSwitchLog.RunKeepsLog` | services/watchdog/killswitch.go:143-279 | every run keeps the event rows in agreement with the halts in memory |
| `KillSwitchLog.RestartFindsMode` | services/risk/engine.go:170-192 | after every run the startup query over unresumed rows finds the watchdog's mode, and reloading in trigger order rebuilds the same halts and mode |
| `KillSwitchLog.AnyOrderExactlyWhen` | services/watchdog/killswitch.go:77-115 | every row order reloads the same mode if and only if no row is left or some most severe row belongs to a scope not upgraded |
| `KillSwitchLog.AnyOrderWithoutUpgrades` | services/watchdog/killswitch.go:77-115 | when no scope was upgraded since its last resume, any row order rebuilds the same halts |
| `KillSwitchRows.CallCovers` | services/watchdog/killswitch.go:118-303 | every operation keeps each known halt among its scope's standing rows and each standing row's scope halted |
| `KillSwitchRows.ReloadCovers` | services/watchdog/killswitch.go:77-115 | so does a restart that reads the rows in any order |
| `KillSwitchRows.OrderKeepsModeExactlyWhen` | services/watchdog/killswitch.go:77-115 | rows read in some order give the mode of the startup query if and only if a most severe one comes last of its scope |
| `TradingHalt.HaltClosesGatesExactlyWhen` | services/execution/engine.go:74-88 | in every state of a fresh run of kill switch, risk, engine and ledger, restarts of each included and event rows read in any order: watchdog and risk are in mode normal if and only if no halt of a known level is active; the engine is if and only if besides it was told no mode since its last restart; under such a halt its gates are closed if and only if it was told one or reconciliation has not passed |
| `TradingHalt.HaltEmptiesBooksExactlyWhen` | services/watchdog/killswitch.go:118-177 | throughout a run nothing is open while cancel_only or full_stop is on record if and only if no submit was accepted by the venue under such a halt and no order was in flight when a trigger cancelled |
| `TradingHalt.StraysFollowRestarts` | cmd/execution-engine/main.go:258-282 | such a submit can only follow a restart of the engine that no push of a mode has followed |
| `TradingHalt.HaltStopsTrading` | services/watchdog/killswitch.go:118-177 | without such submits and triggers, every state with a mode pushed has closed gates under any halt of a known level, and nothing open and no exposure outstanding under cancel_only or full_stop |
| `TradingHalt.HaltStopsTradingWithoutRestart` | services/watchdog/killswitch.go:118-177 | every state of every run in which the engine stays up and no trigger catches an order in flight obeys the halts in this sense |
| `TradingHalt.RestartReopens` | cmd/execution-engine/main.go:90-117 | whatever run precedes and whatever halts it leaves, an engine that restarts and passes reconciliation sends the next approved order of a new trace within the exposure limits to the venue |
| `TradingHalt.StrayOutlivesPush` | cmd/execution-engine/main.go:258-282 | and that order stays open under the halt after the mode is pushed |
| `TradingHalt.FlightOutlivesTrigger` | services/execution/engine.go:283-311 | after any run, an accepted submit that is in flight when a trigger cancels leaves its order open under the halt |
| `TradingHalt.TriggerOrderKeepsModesEqual` | services/risk/engine.go:170-192 | while rows are read in trigger order, risk has the watchdog's mode in every state, and so has the engine once told |
| `TradingHalt.ReloadKeepsRiskExactlyWhen` | services/watchdog/killswitch.go:77-115 | in such a state, after a watchdog restart that reads the rows in any order risk still has its mode if and only if there is no row or a most severe one comes last of its scope |
| `TradingHalt.UnknownLevelStopsNothing` | services/watchdog/killswitch.go:344-355 | in every state a trigger of any other level on a new scope is taken on as active, writes no row, cancels nothing and pushes the mode there is |
| `Watchdog.KillSwitchManager.RecalcMode` | services/watchdog/killswitch.go:323-342 | the loop over the halts, in any order, finds the maximum mode |
| `Watchdog.KillSwitchManager.TriggerHalt` | services/watchdog/killswitch.go:118-211 | takes effect exactly if the scope has no halt or a less severe one; then holds the new halt with its fields, adds its row, sets one mode in watchdog, risk and engine, and from cancel_only up leaves no order open |
| `Watchdog.KillSwitchManager.AcknowledgeHalt` | services/watchdog/killswitch.go:214-253 | succeeds exactly for an active scope that is not yet acknowledged; that halt then names the person, the cause and the time, the other halts stay; its standing rows are changed in the same way |
| `Watchdog.KillSwitchManager.ResumeHalt` | services/watchdog/killswitch.go:256-303 | succeeds exactly for an acknowledged scope; removes it, marks its rows, and passes the new mode on |
| `Watchdog.KillSwitchManager.LoadActiveHalts` | services/watchdog/killswitch.go:77-115 | loads the halts the rows describe, a later row of a scope replacing an earlier one, and their mode |
| `Heartbeat.TickExactly` | services/watchdog/heartbeat.go:61-88 | a tick changes nothing if and only if no critical service is late or a global halt of at least cancel_only is active; with a late service there is such a halt afterwards |
| `Heartbeat.TickActsExactlyWhen` | services/watchdog/heartbeat.go:61-88 | a tick acts if and only if the execution engine or the risk engine has not beaten within grace*interval and no global halt of cancel_only or full_stop is active |
| `Heartbeat.SilentServiceHalts` | services/watchdog/heartbeat.go:61-88 | with ticks one interval apart, a critical service last heard at t has a global halt of at least cancel_only by t + (grace+1)*interval |
| `Heartbeat.PunctualServiceNeverBlamed` | services/watchdog/heartbeat.go:61-88 | a service whose last beat is within grace*interval at every tick is never the reason of a halt, active or on record, whatever the other services do |
| `DeadMansHalt.SilentServiceEmptiesBooks` | services/watchdog/heartbeat.go:61-88 | in every run of the whole system, restarts included, with ticks one interval apart, a critical service last heard at t meets a tick by t + (grace+1)*interval after which, until the global scope is resumed, a global halt of at least cancel_only is on record and, without such submits and triggers, nothing is open and no exposure is outstanding |
| `DeadMansHalt.TickIs` | services/watchdog/heartbeat.go:26-88 | a tick's events make exactly one TickedSystem step of the composed system, on the beats since the watchdog's last restart |
| `DeadMansHalt.LateExactlyUnless` | services/watchdog/heartbeat.go:26-88 | a service is late at a tick exactly unless a beat since the watchdog's last restart is within grace*interval |
| `DeadMansHalt.BlamedExactlyWhen` | services/watchdog/heartbeat.go:26-88 | over every run, watchdog restarts included, a critical service is blamed on record if and only if it is late in this sense at some tick while no global halt of at least cancel_only is in force when it is checked |
| `Heartbeat.PunctualServicesNeverHalt` | services/watchdog/heartbeat.go:61-88 | over every run in which all critical services are within grace*interval at every tick, the kill switch is that of the operators' calls alone |
| `Heartbeat.BeatStays` | services/watchdog/heartbeat.go:38-57 | the last beat of a service is the one remembered |
| `Watchdog.DeadMansSwitch.RecordHeartbeat` | services/watchdog/heartbeat.go:38-57 | sets that service's last beat and no other |
| `Watchdog.DeadMansSwitch.OnTick` | services/watchdog/heartbeat.go:61-88 | the loop over the critical services makes exactly the TickedSystem step on kill switch, risk mode, engine and ledger |
| `Exchange.ExchangeConserves` | services/mockexchange/server.go:128-260 | in every interleaving of submits, cancels and fill attempts: at most one pending attempt per order, fills of at least 1 exactly for positive orders, filled quantity equal to the sum of the fills and at most the quantity, status filled exactly at equality, balance and positions equal to the initial values plus signed fills |
| `Exchange.CancelledForever` | services/mockexchange/server.go:233-260 | a cancelled order never changes or fills again |
| `Exchange.AttemptUsesUp` | services/mockexchange/server.go:174-231 | every fill attempt lowers the measure built on quantity minus filled |
| `Exchange.AttemptsTerminate` | services/mockexchange/server.go:174-231 | so the number of attempts in a run is bounded by what is open and what is submitted |
| `Exchange.ZeroOrderFillsZero` | services/mockexchange/server.go:128-231 | a zero order gets one fill of zero and is filled |
| `Exchange.SubmitRecords` | services/mockexchange/server.go:128-172 | a submit adds one order under the next id with the caller's columns, open with one attempt spawned, or rejected with none |
| `Exchange.CancelExactly` | services/mockexchange/server.go:233-246 | an order that is known and not filled becomes cancelled and keeps what it has filled; no other order, fill, position or balance changes |
| `Exchange.CancelAllLeavesNoneOpen` | services/mockexchange/server.go:248-260 | no order is open or partially filled afterwards; those that were are cancelled, the others as before |
| `Exchange.AttemptRecords` | services/mockexchange/server.go:174-231 | an attempt that fills adds one fill with its order's id, market, side, price, the drawn quantity and its own time, and moves order, position and balance by it |
| `Exchange.FillsRecordAttempts` | services/mockexchange/server.go:174-231 | in every run each fill has its order's market, side and price and the time of an attempt of the run |
| `Exchange.FillsSinceExactly` | services/mockexchange/server.go:262-273 | a poll hands over each recorded fill as often as it is recorded if it is later than the time asked from, and no other |
| `MockExchange.Server.SubmitOrder` | services/mockexchange/server.go:128-172 | stores and returns a new order with the caller's columns under the next id, spawning an attempt unless rejected |
| `MockExchange.Server.SimulateFillProcess` | services/mockexchange/server.go:174-231 | makes exactly the Attempt step for its draw |
| `MockExchange.Server.CancelOrder` | services/mockexchange/server.go:233-246 | succeeds exactly for a known order that is not filled, and cancels it alone |
| `MockExchange.Server.CancelAllOrders` | services/mockexchange/server.go:248-260 | leaves no order open or partially filled, cancels exactly those, in any order, and counts them |
| `MockExchange.Server.PollFills` | services/mockexchange/server.go:262-273 | exactly the fills after the time, in order |
| `MockExchange.PollOverlapExactly` | cmd/execution-engine/main.go:248-253 | two successive polls hand over each fill once if and only if no fill the first one read is later than the start time it recorded |
| `RiskPositions.JoinInjective` | services/risk/engine.go:360-379 | keys are distinct for accounts whose venue and market have no colon |
| `RiskPositions.KeySharedExactlyWhen` | services/risk/engine.go:360-379 | an account shares its key with another one if and only if its venue, market or strategy has a colon |
| `RiskPositions.SharedKeyDoubles` | services/risk/engine.go:360-379 | for any two accounts under one key, a fill of the one shows in the other's row after its next fill |
| `RiskPositions.ReportKeepsSync` | services/risk/engine.go:360-379 | a reported fill keeps memory and table in agreement |
| `RiskPositions.ReportMovesNet` | services/risk/engine.go:360-379 | and moves that market's net contracts by the signed quantity and no other market's |
| `RiskPositions.NetMovesExactlyWhen` | services/risk/engine.go:360-379 | from any positions, a fill moves the net of its market by its signed quantity if and only if memory and row agreed before it |
| `RiskPositions.MemoryIsSums` | services/risk/engine.go:360-379 | over every run of fills contracts and notional under a key are the sums over its fills, buys added and sells subtracted |
| `RiskPositions.RowIsSums` | services/risk/engine.go:360-419 | the row of an account holds these sums as of its own last fill |
| `DailyStats.StatsAreSums` | services/risk/engine.go:387-402 | after every run of fills each date and scope holds the count and the absolute notional of the fills under it |
| `DailyStats.NamedScopesCount` | services/risk/engine.go:387-402 | these scopes are all fills, the fills at a venue and the fills of a strategy, under the names global, venue: and strategy: |
| `Recon.ComparePositionMaps` | services/recon/comparator.go:214-252 | lists each market once, with both positions, if and only if the internal map has it and the exchange lacks it or differs, or only the exchange has it and its position is not zero |
| `Recon.NoMismatchExactlyWhen` | services/recon/comparator.go:70-111 | no mismatch if and only if risk's net equals the exchange position in every market |
| `Pipeline.DropIsExplained` | services/execution/engine.go:412-432 | a fill that matches no open order, and none in flight, belongs to an order the engine has cancelled, or filled up through fills applied again |
| `Pipeline.MissedFallsShort` | services/execution/engine.go:283-311 | an order with a missed fill falls short at the engine, fills applied again aside |
| `Pipeline.OrderConserved` | services/execution/engine.go:412-478 | for each exchange order the engine's filled quantity plus unpolled, dropped and missed fills is the exchange's filled quantity plus fills applied again |
| `Pipeline.FillsUpExactlyWhen` | services/execution/engine.go:283-311 | in every run, an order the exchange has filled, all of whose fills were handed over and none applied again, and which the engine did not cancel, is filled up at the engine if and only if none of its fills was missed |
| `Pipeline.FillCanBeMissed` | services/execution/engine.go:283-311 | for every order that can be submitted there is a run that loses its fill in this way |
| `Pipeline.MissesExactlyWhen` | services/execution/engine.go:283-311 | a run misses no fill if and only if it hands over no new fill while that fill's own order is in flight |
| `Pipeline.ReconciliationExactly` | services/recon/comparator.go:214-252 | in every run of engine, exchange and risk, however often fills are handed over and with acknowledgement and opening of an order as separate steps, the exchange position of each market is risk's net plus unpolled, dropped and missed fills minus those applied again; dropped and missed fills are explained; reconciliation reports nothing if and only if these fills sum to zero in every market |
| `RateLimits.TimesAreApprovals` | services/risk/engine.go:278-324 | the recorded times are exactly the approvals' |
| `RateLimits.NotionalsAreApprovals` | services/risk/engine.go:278-324 | the recorded notionals are the approvals', one beside each time |
| `RateLimits.MinuteHoldsLimit` | services/risk/checks.go:204-220 | any half-open minute holds at most max(1, limit) approvals of a strategy, although the recorded time is later than the checked one |
| `RateLimits.RepeatsAreApart` | services/risk/checks.go:275-282 | two approvals with the same key are at least 30 seconds apart |
| `RateLimits.KeyIsRemembered` | services/risk/engine.go:278-324 | the key of an approval is remembered with a time no earlier than its own |
| `RateLimits.ApprovedExactlyWhen` | services/risk/engine.go:241-349 | over every serial run a call is approved if and only if its order is valid, the mode is normal, the other checks pass, its strategy has no approval yet or fewer than the limit in the 60 seconds before the frequency check, and no approval of its key lies less than 30 seconds before the duplicate check |
| `RiskEngineObject.RiskEngine.CheckFrequency` | services/risk/checks.go:204-220 | the counting loop passes exactly when fewer than the limit are in the last minute, or none was ever recorded |
| `RiskEngineObject.RiskEngine.CheckDuplicate` | services/risk/checks.go:275-282 | passes exactly when the key was not seen in the last 30 seconds |
| `RiskEngineObject.RiskEngine.EvaluateOrder` | services/risk/engine.go:241-349 | fails exactly for an order that is not valid, approves only in mode normal, and records time, key and notional under the order's strategy and key exactly on approval; the decision is that of `RateLimits.ApprovedExactlyWhen` |
| `RiskEngineObject.RiskEngine.ReportFillEvent` | services/risk/engine.go:360-419 | a buy adds quantity and notional under the account's key and a sell subtracts them, the account's row gets the result, and the fill is counted under its three scopes |
| `Ticks.GroupByTimestamp` | services/backtest/loader.go:60-95 | sorts the slice; puts every snapshot in exactly one tick of width at most the tolerance, ticks more than the tolerance apart; a tick quotes, under venue:market, venue, market, bid, ask, volume and time of a newest snapshot of each of its markets and nothing else; for a negative tolerance the ticks are an empty one and then one for each snapshot in order |
| `Ticks.GreedyIsOptimal` | services/backtest/loader.go:60-95 | no cover of the given snapshots by windows of that width has fewer windows than there are ticks |
| `Ticks.TicksCover` | services/backtest/loader.go:60-95 | the ticks' own windows are such a cover |
| `Metrics.ComputeMaxDrawdown` | services/backtest/metrics.go:67-85 | the largest fall from the running peak over all points, 0 if there is none |
| `Metrics.DrawdownIsOverAllPairs` | services/backtest/metrics.go:67-85 | on every curve without negative values this is the largest fall over all pairs i <= j with a positive start, and lies in [0, 1] |
| `Metrics.PairWithinExactlyWhen` | services/backtest/metrics.go:67-85 | for every pair with a positive start, the fall counted at its end is no less than the pair's own if and only if the pair does not end below zero or starts at the running peak |
| `Metrics.NegativeValueCounterexample` | services/backtest/metrics.go:67-85 | on a curve with a negative value the pass misses a larger fall |
| `Metrics.SumTrades` | services/backtest/metrics.go:28-64 | total PnL, gross profit, gross loss, wins and losses are the sums and counts over the trades they name; total PnL equals gross profit minus gross loss |
| `BacktestRuns.BacktestKeeps` | services/backtest/runner.go:56-120 | every backtest: curve steps are trade PnLs, equity, daily PnL and peak are read off the curve with the peak its prefix maximum, positions are the signed sums of the trades, each PnL is that of closing what was held before |
| `BacktestRuns.GatesLatch` | services/risk/checks.go:257-273 | with positive capital every curve point but the last has drawdown below the limit and cumulative loss within it |
| `BacktestRuns.BreachStopsTrading` | services/backtest/runner.go:72-87 | after a breach no later tick or signal trades |
| `BacktestRuns.DrawdownBelowLimit` | services/backtest/metrics.go:67-85 | so the maximum drawdown of the curve without its last point is below the limit |
| `BacktestRuns.TotalIsRise` | services/backtest/runner.go:111-124 | total PnL is the last curve point minus the capital, and is the tracked daily PnL |
| `BacktestRuns.FillAddsAtMost` | services/backtest/fills.go:17-32 | a fill takes the position no higher than it was or than the check allowed for, unless it sells a negative quantity |
| `BacktestRuns.PositionsStayWithinLimit` | services/risk/checks.go:160-172 | with a limit that is not negative and no sell of negative quantity, no position's notional ever exceeds the limit |
| `BacktestRuns.SignalKeepsLimitExactlyWhen` | services/backtest/runner.go:72-119 | a signal can push no position over a kept limit, in any state, tick and policy, if and only if it is no sell of a negative quantity |
| `BacktestRuns.NegativeSellBreaksLimit` | services/backtest/fills.go:17-32 | for every sell of a negative quantity there is a policy and a tick with which it alone ends above the limit |
| `BacktestRuns.RoundTrip` | services/backtest/runner.go:147-195 | in every run, when a sell closes exactly what the buys of a market bought, those buys reported 0 and the sale reports the true net cash flow plus the paid notional modulo the contracts |
| `BacktestQuotes.TradesExactlyWhen` | services/backtest/runner.go:72-120 | a signal trades if and only if the position, loss and other checks pass, its quantity is not 0 and its market's quote crosses its price, with 0 < ask <= price for a buy and 0 < bid >= price for a sell; the trade is its full quantity at the ask, or the bid; otherwise nothing changes |
| `BacktestQuotes.TradesAreAtQuotes` | services/backtest/fills.go:17-32 | in every backtest each trade is some signal's full quantity at its own tick's ask, for a buy, or bid, for a sell |
| `BacktestQuotes.PartOfLongReports` | services/backtest/runner.go:147-178 | a sale of at most what is held reports its proceeds minus that quantity at the truncated average |
| `BacktestQuotes.BeyondLongReportsAll` | services/backtest/runner.go:147-178 | a larger one reports what a sale of all does |
| `BacktestQuotes.PartOfShortReports` | services/backtest/runner.go:147-178 | a purchase that closes part of a short position (above -2^31 contracts) reports the average received minus the price, for that quantity |
| `BacktestQuotes.BeyondShortReportsAll` | services/backtest/runner.go:147-178 | a larger purchase reports what closing all of it does |
| `BacktestQuotes.OpeningReportsNothing` | services/backtest/runner.go:147-178 | a trade that closes nothing reports no PnL |
| `BacktestQuotes.QuotientTruncates` | services/backtest/runner.go:147-178 | averages are cut towards zero |
| `BacktestQuotes.PartsAddUp` | services/backtest/runner.go:147-178 | closing a position in two parts reports what closing it at once does |
| `BacktestRunner.RiskState.UpdateState` | services/backtest/runner.go:180-204 | adds the fill to the position under venue:market:strategy, contracts in int32 and notional, sets the exposure to its absolute value, and records time, notional and key; nothing else changes |
| `BacktestRunner.TradeSignal` | services/backtest/runner.go:72-119 | trades exactly under the conditions of `BacktestQuotes.TradesExactlyWhen`, at that quote, and makes exactly the Attempt step on books, curve and equity |
| `BacktestRunner.Run` | services/backtest/runner.go:36-131 | fails exactly on an unregistered strategy or a cancelled context; else returns the trades and curve of the run, its maximum drawdown, and a total PnL equal to the rise of the curve |

## Left out

- Postgres, NATS, gRPC, HTTP, Telegram, metrics, logging and the audit chain: only table contents and call order are modelled.
- HMAC and SHA-256: whether an approval is authentic is a field of it.
- cmd/trade-ctl, which writes kill-switch rows directly and would break the event-log invariant.
- Global, venue and concentration limits as invariants of a live run: `ReportFill` does not update those totals.
- Risk checks other than frequency, duplicate, position limit, daily loss and drawdown: an arbitrary outcome stands for them.
- What an operator does after a restart that cannot scan a row: the engine stays down and the run ends there.
- Failing writes other than constraint violations, timestamp columns, and overflow of 64-bit sums.
- Contract counts in risk's live positions and in the exchange do not wrap at 32 bits.
- Goroutine scheduling below the level of whole operations, apart from Append's gap, the exchange's fill attempts and the gap between acknowledgement and opening of an order.
- The sort in `GroupByTimestamp` is an insertion sort that stands for the library's; the theorems use only that it sorts and permutes.
- Backtest ticks are taken to be keyed by venue and market, as `GroupByTimestamp` keys them; rate tracking is kept for the one strategy of a run.
- Backtest round trips of short positions, repeated round trips and the duplicate check inside a backtest, whose recorded key is not the one the check reads.
- Win rate, profit factor, Sharpe ratio and floating-point rounding.
- Order and balance comparison, `RecoverFull`, the Kalshi client, strategies, and the Python services.
