# AstraForge: a verified model

AstraForge is a fail-closed order-execution backend: a deterministic market scanner proposes signals, a risk
engine sizes them, a durable queue and a worker execute them against an exchange demo account, and a set of
reconcilers and audits decides whether automation may go on. This Dafny project models its state machines and
arithmetic and proves what they promise. `dafny verify dfyconfig.toml` checks everything.

## What is modelled

| Part | Modules |
|---|---|
| Entry protocol against a faulty exchange | `ExchangeModel`, `EntryProtocol`, `EntrySafety`, `EntryRuns`, `EntrySuccess`, `EntryLeftovers`, `EntryWitnesses`, `ExecutionService` |
| Rounding and risk allocation | `ExchangeRules`, `RiskAllocator` |
| Durable command queue and its worker | `CommandQueue`, `ExecutionWorker` |
| Strategy kernel, its LONG/SHORT symmetry and scoring budget, indicators | `Strategy`, `StrategySymmetry`, `StrategyRules`, `StrategyScores`, `StrategyBounds`, `Indicators`, `IndicatorSeries`, `Alignment`, `SymbolScan` |
| Exchange-evidence ledgers | `ProtectiveLifecycle`, `ProtectiveLedger`, `ProtectiveRuns`, `ProtectiveCloses`, `OrderAudit`, `OrderEvidence`, `OrderAuditRuns`, `OrderAuditRules` |
| Single-flight account snapshot | `AccountSnapshot` |
| Long-lived stores and caches | `SignalStore`, `SignalService`, `SignalRuns`, `SignalRules`, `ScannerTombstones`, `ScannerRules`, `ActiveRefresh`, `Retention`, `SharedSnapshots` |
| Reconcilers and recovery checks | `Reconcilers`, `RecoveryChecks`, `ActiveTrades`, `PartialCloses` |
| Trading universe | `Universe`, `UniverseRules` |

Code that changes fields step by step is a class whose methods are proved equal to functions or step relations;
the theorems about whole runs are lemmas about those. Code that only computes is functions and lemmas.

## Assumptions

- Decimal numbers are exact reals; the 28-digit context and finite-number checks are idealised away.
- The exchange: market orders are final when the call returns, FILLED means the whole quantity, answers about
  status and executed quantity are truthful (identity and price fields may be missing), a reduce-only order never
  grows or flips a position, protective orders do not trigger inside one call. It may reject, accept without
  answering, or answer without having accepted, and the process may die at any call. Client ids are not assumed to
  be enforced as unique; uniqueness of orders is proved.
- Exchange fill ids are texts and sort as texts; a fill history is called append-only when it grows at the end in the
  order of time and id.
- The scanner's clock never goes back where a cooldown is compared with a later one, nor do the workers' clocks between
  two claims of one command.
- Content hashes and the 20-character signal prefix are injective, so a hashed text stands for its hash.
- Activations are sequential; a database transaction is one atomic step that an error rolls back; one worker is live.

## What the proofs found

- An entry whose placement landed but whose answer and recovery query were both lost ends as
  DEMO_ORDER_REJECTED with an open, unprotected position. `ProtectedOrRestored` shows that this is the only way an
  error other than UNPROTECTED_DEMO_POSITION leaves a position behind.
- After an emergency close, a retry finds the old filled entry and can return a trade with no position behind it.
- The worker demands an exact take-profit equality although the backend rounds to ticks, so a command completes only
  if its raw target already lies on a tick.
- A SUBMITTING command past its deadline, and one its worker left in ENTRY_CONFIRMED, PROTECTION_PENDING or PROTECTED, is
  never expired and never claimed.
- After a failed protection and a verified close a guard can stay active without a position: a take-profit whose answer
  was lost is never cancelled.
- A late protective fill with an earlier time, or of the same instant with an id that sorts earlier as text, leaves the
  recorded running totals of older events stale; a sibling order reported FINISHED counts as cancelled.
- An account refresh in flight survives `invalidate`, and a forced get may share a fetch that began before it,
  each exactly when a refresh was in flight.
- A risk block lasts only as long as retention keeps the record, and a re-entry cooldown only as long as its entry;
  `SignalRuns` and `ScannerTombstones` say exactly when each is lost.
- The startup check accepts a partly filled guard that the restart report calls unsafe.
- A candle boundary between the time lookup and the rows makes a cache miss one or more candles short.
- The score clamps, the grade test for qualification, the tick and step remainder checks, and two of the order-audit
  progression checks can never fire: other checks imply them.
- LONG and SHORT are treated alike but for three things that measure prices from zero: alignment refuses candles that are
  not positive, the volatility gates divide ATR by the close, and the published stop must be a positive price. For each
  the exact condition is stated.
- All four reconcilers compare the position with the executed entry quantity, not with what remains after a verified
  partial close (app/services/position_reconciliation.py:228, app/services/restart_recovery.py:90,
  app/services/recovery.py:430, app/services/active_trade_authority.py:204), so they agree with each other and block
  together after a partial close (`PartialCloseBlocksReconcilers`).

## Model

| member | source | states |
|---|---|---|
| EntrySafety.ProtectedOrRestored | app/services/execution.py:332-501 | From a clean slate: a returned trade moved the position by exactly its executed quantity (positive, at most the approved one), and its stop and take-profit are active reduce-only orders on the exit side, for that quantity, at its trigger prices; any error but UNPROTECTED_DEMO_POSITION leaves the position alone except, and exactly, when the entry landed unanswered and the recovery query went unanswered too; other symbols never move |
| EntryRuns.ActivationFailsClosed | app/services/execution.py:270-501 | The same for the whole `activate` call with its refusals and checks in front, both active guards included, for every list of assessments and every pattern of faults |
| EntryRuns.LostAnswersLeaveAPosition | app/services/execution.py:564-598 | The exception is real: a concrete run ends in DEMO_ORDER_REJECTED with an open, unprotected position |
| EntrySuccess.ActivationReturnsExactlyWhen | app/services/execution.py:270-501 | A signal never ordered before: an activation returns a trade if and only if its first assessment is approved and complete, nothing local stands against it, the three reads allow the rounded plan, the entry is placed, fills whole and is confirmed, the fill is beyond the stop, the tick-rounded target exists, the second mark lies strictly between stop and target, and both guards land active and are confirmed; written in fields for LONG and SHORT, with every field of the returned trade |
| EntrySuccess.ReturnsExactlyWhen | app/services/execution.py:352-501 | The same from the valid plan on, call by call over faults, fill and prices |
| EntrySuccess.ShortActivationReturns | app/services/execution.py:386-436 | It happens: from an empty book a SHORT with stop 11, fill 10, R multiple 2 and ticks of 1 returns with its take-profit at 8 |
| EntrySuccess.AbandonExactlyWhen | app/services/execution.py:437-461 | A failed protection ends as PROTECTIVE_ORDER_FAILED_POSITION_CLOSED exactly when the reduce-only close fills whole against a position large enough and its answer says so, whatever the cancellation answered; otherwise as UNPROTECTED_DEMO_POSITION |
| EntrySuccess.UnverifiedEntryExactly | app/services/execution.py:366-384 | An entry answer that does not verify: a reported fill within the plan is closed before the error is raised, exactly when that close succeeds; nothing is sent for no fill or for more than the plan |
| EntrySafety.OneOrderEach | app/services/execution.py:564-598 | Every activation, from any state and also when the process dies inside it, keeps at most one entry, stop and take-profit per signal, and a returned trade describes those orders |
| EntrySafety.ReturnedTradeIsNewExactlyWhenEntryWasAbsent | app/services/execution.py:564-598 | A returned trade added its quantity to the position if and only if no entry order existed before; after an emergency close a retry returns a trade with no new position behind it |
| EntryWitnesses.RetryReturnsATradeWithoutAPosition | app/services/execution.py:564-598 | The failing case is reachable: from an empty book one activation ends in PROTECTIVE_ORDER_FAILED_POSITION_CLOSED and the next returns a trade with no position |
| EntryLeftovers.GuardsLeftExactlyWhen | app/services/execution.py:386-461 | After PROTECTIVE_ORDER_FAILED_POSITION_CLOSED from a clean slate the position is as before, the stop is still active exactly when it landed and was not both verified and cancelled, and the take-profit exactly when it landed at all |
| EntryWitnesses.TakeProfitIsLeftWithoutAPosition | app/services/execution.py:443-461 | It happens: one activation from an empty book ends closed with an active reduce-only take-profit |
| EntrySafety.EntryFresh | app/services/execution.py:574-598 | Query, place, query again: nothing landed or exactly one order did, any answer describes it, and an error hides a position exactly when both answers were lost |
| EntrySafety.ClosePhase | app/services/execution.py:600-627 | A verified emergency close takes exactly the requested quantity out of the position; otherwise the call ends as UNPROTECTED |
| EntrySafety.AfterEntryPhase | app/services/execution.py:366-501 | From the entry answer on: a trade with two active guards of its own quantity and prices, or the entered quantity is taken back, or UNPROTECTED |
| EntryRuns.HistoriesKeepOneEach | app/services/execution_private_adapter.py:16-65 | Over every sequence of activations, crashes, ambiguous failures and outside events the exchange holds at most one entry, stop and take-profit per signal |
| EntryRuns.HistoriesReturnTheOneOrder | app/services/execution.py:564-598 | After any such history, the payload an activation returns describes those very orders |
| ExecutionService.ExchangeClient.PlaceProtection | app/services/execution_private_adapter.py:16-65 | The adapter's ordered query, submit, query on a live exchange equals its specification |
| ExecutionService.DemoExecutionService.Activate | app/services/execution.py:270-501 | The ordered calls on the exchange and the in-place trade store equal the specification the safety theorems are about |
| ExecutionService.DemoExecutionService.AutoExecutePending | app/services/execution.py:182-199 | The loop over the plans, behind the READY gate, equals the automation cycle on the exchange, the trades and the count |
| ExecutionService.CycleAddsOneTradeEach | app/services/execution.py:182-199 | A cycle only appends trades, as many as it counts, each of an executable plan that had none, and one trade per signal stays one, whatever errors are swallowed |
| ExecutionService.CycleExactly | app/services/execution.py:182-199 | A cycle runs only when everything is ready, in settings fields, and activates the n-th plan exactly when it is approved, its signal has no trade by then and the process lives |
| ExchangeRules.MarketQuantityIsGreatestStep | app/services/exchange_rules.py:53-65 | Quantity normalisation succeeds exactly when the greatest step multiple not above the approved quantity is within limits, and returns it |
| ExchangeRules.ProtectivePriceMovesAway | app/services/exchange_rules.py:67-91 | A protective price lands on a tick, moved to the safe side by less than one tick; the remainder check can never fire |
| ExchangeRules.RewardAtLeastMultiple | app/services/execution.py:386-409 | For both directions and any fill price, the rounded take-profit distance is at least R times the rounded stop distance, and less than one tick more |
| ExchangeRules.LossWithinBudget | app/services/execution.py:332-384 | After both roundings, a position filled at its trigger loses at the stop at most the budget plus quantity times tick |
| ExchangeRules.NormalisationIsIdempotent | app/services/exchange_rules.py:53-91 | Normalising a normalised quantity or price changes nothing |
| RiskAllocator.BuildAssessments | app/services/risk.py:149-253 | The loop with its three running reservations equals the greedy allocation the theorems are about, one assessment per signal in order |
| RiskAllocator.ReservationsMatchAnswer | app/services/risk.py:149-253 | The reserved margin, slots and symbols are at every point exactly those of the approvals already given |
| RiskAllocator.ApprovedExactlyWhenItFits | app/services/risk.py:149-253 | A signal is approved if and only if, in policy, snapshot and signal fields, it is of grade A or A+ with its stop on the losing side, no account-wide lock holds, its symbol is free and its margin fits beside the approvals before it; then quantity times stop distance is the per-trade budget and margin times leverage the notional |
| RiskAllocator.ApprovalsStayWithinLimits | app/services/risk.py:149-253 | Whenever anything is approved there is a snapshot without error, trading is allowed, wallet, risk percent and exposure limit are positive, the daily result is strictly above a configured loss limit and below a configured profit lock, and exposure, balance, trade limit and distinct symbols hold for the whole answer |
| RiskAllocator.BlockedForATrueReason | app/services/risk.py:149-390 | Every reason given for a blocked signal is true of it, in the fields the reason names; WATCH and TERMINAL are answered exactly for those lifecycles |
| RiskAllocator.SizingSpendsTheBudget | app/services/risk.py:315-327 | Quantity times stop distance is exactly the risk budget, margin times leverage exactly the notional, and the stop is on the losing side |
| RiskAllocator.ApprovedLossAfterRounding | app/services/risk.py:315-327 | From approval through both roundings: never more quantity than approved, loss at the stop within budget plus one tick a unit |
| CommandQueue.TransitionSound | app/persistence/execution_command_repository.py:365-416 | A transition is refused exactly when the edge is missing; otherwise history grows by at most one line and identity and deadlines stay |
| CommandQueue.TransitionWrites | app/persistence/execution_command_repository.py:365-416 | The edges of the graph as pairs: a move is written exactly along one of them, and then one history line, each carried update and nothing else is written |
| CommandQueue.ClaimWrites | app/persistence/execution_command_repository.py:243-363 | A claim writes worker, time and token, clears the failure, and appends the recovery line first when the record was still claimed |
| CommandQueue.RunsAreSound | app/persistence/execution_command_repository.py:243-416 | Every reachable queue keeps each history numbered 1..n from PENDING, chained along allowed edges and ending in the row's and the payload's state; histories only grow |
| CommandQueue.TerminalStaysOverRuns | app/persistence/execution_command_repository.py:26-81 | A record in a terminal state is identical after every run |
| CommandQueue.CompletedPath | app/persistence/execution_command_repository.py:26-81 | Any COMPLETED history ends with CLAIMED, SUBMITTING, ENTRY_CONFIRMED, PROTECTION_PENDING, PROTECTED, COMPLETED |
| CommandQueue.ReclaimNeedsRecovery | app/persistence/execution_command_repository.py:26-81 | Between two claims of one command there is a RECOVERY_REQUIRED directly before the later one |
| CommandQueue.ClaimExclusivity | app/persistence/execution_command_repository.py:243-363 | A claim takes an oldest claimable command whenever one exists, never an expired one, and a claimed one only after its timeout through RECOVERY_REQUIRED; without one it only expires |
| CommandQueue.OldestInFields | app/persistence/execution_command_repository.py:254-330 | The record a claim takes, in fields: before its deadline and PENDING, in RECOVERY_REQUIRED or claimed longer than the timeout ago, and no such record is older |
| CommandQueue.ClaimsNeverOverlap | app/persistence/execution_command_repository.py:243-330 | Over every run between two claims of one command at t1 and t2: by then it is in RECOVERY_REQUIRED, or t2 is at least t1 plus the timeout and the command goes through RECOVERY_REQUIRED in the second claim |
| CommandQueue.RecordStaysExactlyUnlessMoved | app/persistence/execution_command_repository.py:254-363 | Over every run in which no worker transitions the record, it is left as it is if and only if no poll moves it: PENDING and RECOVERY_REQUIRED expire or are claimed, CLAIMED expires or is reclaimed after its timeout, SUBMITTING is only ever reclaimed between its timeout and its deadline, every other state is never touched |
| CommandQueue.AbandonedMidwayStaysForever | app/persistence/execution_command_repository.py:254-277 | A record left in ENTRY_CONFIRMED, PROTECTION_PENDING or PROTECTED is neither expired nor claimed by any number of polls |
| CommandQueue.OverdueSubmissionIsNeverPickedUp | app/persistence/execution_command_repository.py:264-277 | A SUBMITTING record past its deadline is neither expired nor claimed by any number of polls |
| CommandQueue.CreateIsIdempotent | app/persistence/execution_command_repository.py:113-158 | A creation fails exactly when its key is free but another row has its primary key or its origin, and then changes nothing; after a success a second creation by the key changes nothing and answers with the same durable command |
| CommandQueue.CreateExactly | app/persistence/execution_command_repository.py:113-158 | Creating in fields: nothing happens when a row has the key, the id or the origin; else one PENDING row with one history line; the answer in each case |
| CommandQueue.DeterministicCommandsNeverConflict | app/services/execution_command.py:99-151 | Commands whose id and key are an injective digest of signal, decision and snapshot never meet that conflict, and no two rows share an origin |
| ExecutionWorker.ExecutionCommandRepository.ClaimOldest | app/persistence/execution_command_repository.py:243-330 | The claiming transaction's effect on the whole store, equal to the abstract step |
| ExecutionWorker.AcceptedExactlyOnTick | app/services/execution_worker.py:240-267 | A protected trade is accepted by the worker if and only if its raw take-profit target already lay on a price tick |
| EntryWitnesses.OffGridTradeIsRejected | app/services/execution_worker.py:240-267 | The failing case is reachable: a filled trade, protected at the rounded target, is rejected with TAKE_PROFIT_R_MULTIPLE_CONFLICT |
| ExecutionWorker.DemoExecutionWorker.ProcessOne | app/services/execution_worker.py:107-237 | A lone worker never attempts an illegal transition and claims the oldest waiting command. After a submission the refusals that precede it (the 28 codes, written out) leave BLOCKED, every other code, every conflict of the returned trade and every unexpected failure leave RECOVERY_REQUIRED with the code recorded; COMPLETED exactly when the trade matches the command in every field and all five transitions were stored, with its three order ids recorded; an exception leaves the command in flight and when the gate fails is stated; other commands are untouched |
| ExecutionWorker.AcceptedExactlyWhenItMatches | app/services/execution_worker.py:239-267 | The returned trade is accepted exactly when ids, status, quantity and guards match the command and its target is exactly the R multiple away, per direction |
| ExecutionWorker.BlockedCommandsSentNothing | app/services/execution_worker.py:28-59 | Over every activation the worker can meet: a failed one blocks its command exactly for PLAN_NOT_EXECUTABLE and SIGNAL_NOT_FOUND, and then exchange and trades are untouched; whenever anything changed the command is left for recovery |
| StrategySymmetry.RegimeReflects | app/services/scanner_base.py:344-389 | On reflected candles the regime is the opposite direction, or the same error code |
| StrategySymmetry.SelectedEmaReflects | app/services/scanner_base.py:392-405 | The reflected market selects the reflected EMA, or fails with the same code |
| StrategySymmetry.SharedEntryReflects | app/services/scanner_base.py:424-464 | The entry rule accepts a SHORT at a trigger exactly when it accepts the reflected LONG |
| StrategySymmetry.TriggerReflects | app/services/scanner_setups.py:62-109 | Entry triggers of all five setups reflect |
| StrategySymmetry.TrendPullbackReflects | app/services/scanner_setups.py:111-205 | Trend pullback: same outcome code, reflected prices, identical points |
| StrategySymmetry.SearchReflects | app/services/scanner_setups.py:207-284 | Breakout and retest: the same of the search over the three candidate candles |
| StrategySymmetry.EmaRejectionReflects | app/services/scanner_setups.py:286-344 | EMA rejection: the same |
| StrategySymmetry.LiquiditySweepReflects | app/services/scanner_setups.py:346-414 | Liquidity sweep: the same |
| StrategySymmetry.ContinuationReflects | app/services/scanner_setups.py:416-495 | Continuation: the same |
| StrategySymmetry.EvaluationReflects | app/services/scanner_setups.py:39-60 | A whole evaluation accepts the mirrored matches in the same order and reports the same failure codes |
| StrategySymmetry.ScoreReflects | app/services/scanner_scoring.py:36-225 | Score, confidence, grade and all seven components are identical for the reflected match |
| StrategySymmetry.JudgeReflects | app/services/scanner_full.py:368-418 | Readiness and lifecycle of a match are identical on the reflected market |
| StrategySymmetry.ScanReflectsExactlyWhen | app/services/scanner_full.py:304-366 | On loaded frames, from regime and volatility gates to the selected candidate: a market is bought on a setup exactly when its reflection is sold on it, if and only if the regime refuses it or the gates answer alike about (close, ATR) and (k - close, ATR) |
| StrategySymmetry.GatesReflectExactlyWhenTheyAgree | app/services/scanner_base.py:407-422 | The 15-minute and 5-minute gates treat a frame and its reflection alike if and only if the ATR lies on the same side of the same multiples of both closes |
| StrategySymmetry.ReflectionCanBeTooVolatile | app/services/scanner_base.py:407-422 | They need not: an uptrend at 100 with ATR 1 is evaluated, its reflection at 10 is refused with VOLATILITY_ABOVE_MAXIMUM |
| StrategySymmetry.DecideReflects | app/services/scanner_full.py:338-350 | The choice among several matching setups picks the reflected candidate |
| Strategy.BestIsFirst | app/services/scanner_full.py:66-85 | The selected candidate is one of the candidates and none of them precedes it |
| StrategySymmetry.InvalidationReflects | app/services/scanner_scoring.py:227-300 | A stored setup is invalidated exactly when its reflection is |
| ActiveRefresh.RefreshCandidate | app/services/scanner.py:89-283 | One candidate's turn of the refresh loop, from fresh frames to the applied outcome |
| ActiveRefresh.RefreshReflectsExactlyWhen | app/services/scanner.py:89-283 | A refresh ends, keeps or leaves the reflected candidate exactly as the original, if and only if, of snapshots that load, every high is below k and the trend decides, the gates admit both or neither or admission makes no difference, or some high is not and the original is itself treated as a failure of data; of refused ones, the reflection is treated as one too |
| ActiveRefresh.ReflectedCandidateCanSurvive | app/services/scanner.py:101-113 | The failing case is reachable: a SHORT candidate ends INVALIDATED by its lost trend while its reflection, refused at loading, stays active |
| ActiveRefresh.RefreshAgreesWithScan | app/services/scanner.py:101-213 | Refreshed on the frames that selected it, an unexpired candidate keeps the lifecycle the scan gave it unless those frames invalidate it |
| ActiveRefresh.CandidatesEndForAReason | app/services/scanner.py:214-283 | A failure of data never ends an unexpired candidate, a qualified one is never rejected for its score, and an expired one is never left as it was |
| ActiveRefresh.RefreshExactlyWhen | app/services/scanner.py:89-283 | A refresh outcome by outcome: invalidated, expired, kept, rejected or failed, each exactly when trend, gates, invalidation, time and the new score say so |
| StrategySymmetry.StopReflectsInsideTheAxis | app/services/scanner_runtime.py:363-431 | The stop for Risk reflects if and only if its boundary is positive on both axes or on neither; the positivity check is the one asymmetry of the stop |
| Strategy.StopIsTheInvalidationBoundary | app/services/scanner_runtime.py:363-431 | The published stop is positive, on the losing side of the trigger, and a price is past it exactly when the invalidation rule strikes at that price |
| Strategy.BreakoutRetestLoop | app/services/scanner_setups.py:207-284 | The loop with its flags equals the search the symmetry is proved of |
| Strategy.EvaluateSetups | app/services/scanner_setups.py:39-60 | Every setup ends on exactly one of the two lists, in the fixed order |
| StrategyBounds.SetupPointsWithinBudget | app/services/scanner_setups.py:111-495 | Whatever the setup, an accepted match is of that setup and worth between 0 and 25 points |
| StrategyBounds.ScoreIsTheRoundedSum | app/services/scanner_scoring.py:36-225 | The score is the rounded sum of seven components, each within its share of one hundred; neither clamp ever bites, only the cap at 84 lowers a score |
| StrategyBounds.QualifiedExactlyWhen | app/services/scanner_full.py:368-418 | A match qualifies if and only if its entry rule holds, its confidence is at least 70 and its components round to at least 85; the entry rule is the 5-minute candle after confirmation and before expiry crossing its trigger, in fields; a qualified match has its close strictly beyond its trigger; the cap and the grade test add nothing |
| StrategyRules.SelectedVerdictHolds | app/services/scanner_full.py:318-418 | Whatever a scan selects, in fields per direction: the hourly trend, both volatility gates, the setup of the match, its recorded trigger and expiry, and readiness exactly as the verdict says; a QUALIFIED verdict has its newest close strictly beyond its trigger |
| StrategyRules.ReadyExactlyWhen | app/services/scanner_base.py:424-464 | A judged match is ready exactly when the 5-minute candle came after confirmation and before expiry and is beyond trigger, average, previous extreme and open, with close position, RSI band, MACD side, histogram, volume and extension, written out per direction |
| StrategyRules.RegimeExactlyWhen | app/services/scanner_base.py:344-389 | LONG and SHORT regimes, and the sideways refusal, if and only if their conditions in fields hold |
| StrategyRules.GatesExactlyWhen | app/services/scanner_base.py:408-422 | Both gates pass exactly when ATR over close lies within the two stated bands |
| StrategyRules.PullbackExactlyWhen | app/services/scanner_setups.py:111-205 | The trend pullback is accepted exactly when its conditions in fields hold, with its swing the extremes of four candles |
| StrategyRules.BreakoutExactlyWhen | app/services/scanner_setups.py:207-284 | A breakout candle is found exactly when it broke and the newest candle retested the extreme of the twenty candles before it, in fields |
| StrategyRules.SearchTakesTheFirst | app/services/scanner_setups.py:207-284 | The search takes the youngest of the three candles that holds, unless a younger one ended it with an error |
| StrategyRules.RejectionExactlyWhen | app/services/scanner_setups.py:286-344 | The EMA rejection is accepted exactly when its conditions in fields hold, at the nearer eligible average |
| StrategyRules.SweepExactlyWhen | app/services/scanner_setups.py:346-414 | The liquidity sweep is accepted exactly when its conditions in fields hold, at the extreme of up to ten candles |
| StrategyRules.ContinuationExactlyWhen | app/services/scanner_setups.py:416-495 | The continuation is accepted exactly when its conditions in fields hold, out of the range of three narrow candles |
| StrategyRules.NoneIsBetter | app/services/scanner_full.py:66-85 | No other verdict is better by lifecycle, score, confidence, setup name and reference time, compared in that order |
| StrategyRules.InvalidatedExactlyWhen | app/services/scanner_scoring.py:227-300 | A stored setup is invalidated exactly when its close broke the level of its setup by the stated slack, in fields per direction |
| StrategyRules.StopPublishedExactlyWhen | app/services/scanner_runtime.py:363-431 | A stop is published exactly when its evidence is stored, it is positive and on the losing side of the trigger, and then it is the stated price |
| StrategyScores.ScoreInFields | app/services/scanner_scoring.py:36-225 | The seven components, the confidence and the grade of every score, in candle and indicator fields |
| StrategyScores.PullbackIsWorth | app/services/scanner_setups.py:111-205 | The points of an accepted pullback as clamped shares of its fields; `RetestIsWorth`, `RejectionIsWorth`, `SweepIsWorth` and `ContinuationIsWorth` say the same of the other setups |
| Indicators.Sma | app/services/indicators.py:33-42 | The running sum equals the window mean at every index |
| Indicators.Ema | app/services/indicators.py:45-55 | The loop equals the recursive definition, absent before the window is full |
| Indicators.WilderAverage | app/services/indicators.py:115-124 | The Wilder loop is exponential smoothing with weight 1/period |
| Indicators.Rsi | app/services/indicators.py:69-95 | RSI is the share function of the Wilder averages of gains and losses |
| Indicators.AveragesStayWithinInputs | app/services/indicators.py:45-124 | EMA and Wilder averages lie between the least and greatest input seen so far |
| Indicators.RsiWithinHundred | app/services/indicators.py:69-95 | RSI is between 0 and 100 |
| Indicators.RsiReflects | app/services/indicators.py:69-95 | Reflected closes turn RSI r into 100 - r |
| IndicatorSeries.EmaSparse | app/services/indicators.py:58-66 | The EMA of the present values is put back in their places |
| IndicatorSeries.SparseReflects | app/services/indicators.py:58-66 | Negating the present values negates the sparse EMA |
| IndicatorSeries.TrueRangesKept | app/services/indicators.py:98-112 | True ranges do not see the reflection |
| IndicatorSeries.StructureExactly | app/services/indicators.py:139-168 | The structure compares greatest high and least low of the last ten candles with those of the ten before, in fields |
| IndicatorSeries.LevelsExactly | app/services/indicators.py:139-142 | Support and resistance are the least low and greatest high of the last twenty candles, or of all |
| IndicatorSeries.StructureReflects | app/services/indicators.py:139-173 | Reflection swaps bullish and bearish structure and keeps range and insufficient data |
| IndicatorSeries.PointReflects | app/services/indicators.py:179-240 | One point of the reflected series is the reflection of the point: EMAs reflected, RSI complemented, MACD family negated, ATR and volume ratio kept |
| IndicatorSeries.Vwap | app/services/indicators.py:127-136 | The running sums give the volume-weighted mean of the typical prices so far, absent without volume |
| IndicatorSeries.VwapReflects | app/services/indicators.py:127-136 | The VWAP of reflected candles is the reflected VWAP |
| IndicatorSeries.LevelsReflect | app/services/indicators.py:139-173 | Reflection exchanges support and resistance |
| IndicatorSeries.Calculate | app/services/indicators.py:179-240 | The engine's whole-series computation gives the defined point and VWAP at every index, the structure and both levels |
| Alignment.AlignSeries | app/services/scanner_base.py:230-342 | Alignment check by check with its two loops equals its definition: the aligned frames and their freshness, or the first failed check's code |
| Alignment.AlignedExactlyWhen | app/services/scanner_base.py:231-341 | A series aligns exactly when flags, lengths, order, candles, spacing, age and newest points are as stated in fields; the frames and the freshness it then gives |
| Alignment.CommonExactly | app/services/scanner_base.py:268-278 | The pairs are the candles with a point of their close time, in order, each with that point |
| Alignment.AlignReflectsExactlyBelowTheAxis | app/services/scanner_base.py:276-316 | Aligned candles whose highs all lie below k align to the reflected frames; any others are refused with INVALID_1H/15M/5M_OHLCV of their interval |
| SymbolScan.LoadedScanReflectsExactlyWhen | app/services/scanner_full.py:285-366 | For all candle and indicator snapshots that load: a symbol is bought exactly when its reflection is sold, if and only if every high is below k and the regime refuses or the gates agree - or, the one coincidence, only hourly highs are all below and the original already ends INVALID_15M_OHLCV |
| SymbolScan.RefusedScanReflectsExactlyWhen | app/services/scanner_full.py:285-366 | Snapshots that do not load: the scans agree if and only if the reflection is refused with the same code, or loads and meets the condition of its own reflection |
| SymbolScan.CandlesToVerdictReflectExactlyWhen | app/services/scanner_full.py:285-418 | The same from raw closed candles and the indicators calculated from them, with every candle of the three intervals in the condition |
| SymbolScan.ReflectionCanFallBelowZero | app/services/scanner_base.py:286-304 | It matters: a symbol is evaluated whose reflection at 170, with regime and gates in agreement, is refused as INVALID_15M_OHLCV because one 15-minute high is 180 |
| ProtectiveLifecycle.CollectFills | app/services/protective_lifecycle.py:734-771 | The collecting loop and its sort equal the definition, first defect included |
| ProtectiveLifecycle.CollectedFills | app/services/protective_lifecycle.py:734-771 | A successful collection holds every row of the order once, acceptable, strictly ordered by time and id |
| ProtectiveLifecycle.CollectedExactlyWhenLegible | app/services/protective_lifecycle.py:734-771 | A collection succeeds exactly when every row of the order has an id, closes, is of positive size and price, and no id comes twice |
| ProtectiveLedger.PartialCountCountsEvents | app/services/protective_lifecycle.py:544-557 | The quadratic count equals the number of PARTIAL_CLOSE events |
| ProtectiveLedger.ProtectiveLifecycleService.Apply | app/services/protective_lifecycle.py:436-609 | The transaction's loop with running totals yields the defined row and new events, or changes nothing |
| ProtectiveLedger.ProtectiveLifecycleService.Reconcile | app/services/protective_lifecycle.py:201-346 | One trade's turn of reconciliation with its order and trade identity checks, as one step on memory, row and events |
| ProtectiveRuns.ExactLedgerMeans | app/services/protective_lifecycle.py:495-557 | An exact ledger: one event per fill, prefix sums, cumulative plus remaining is the entry quantity, only the last event of a full close is a stop or take-profit event, the stored partial count is the number of partial events |
| ProtectiveRuns.RunsKeepTheLedgerExact | app/services/protective_lifecycle.py:201-609 | Over every run with append-only fill history, including results lost before publication, the ledger is exact |
| ProtectiveRuns.LedgerStaysExactIffFillsArriveInOrder | app/services/protective_lifecycle.py:488-538 | One transaction keeps the ledger exact if and only if every new fill sorts after every recorded one |
| ProtectiveRuns.FillsOfOneInstantCanBreakTheLedger | app/services/protective_lifecycle.py:495-538 | An exchange that only appends can break it: a two-look run from an opened trade, where of two fills of one instant the later id, 1000, sorts as text before the earlier, 999, ends with a ledger that is exact for no fills |
| ProtectiveRuns.ClosedStaysClosedOverRuns | app/services/protective_lifecycle.py:459-460 | After a close no event is added and nothing but the sibling flag and time stamp ever changes |
| ProtectiveRuns.RepeatingAddsNothing | app/services/protective_lifecycle.py:436-609 | A second turn on the same evidence adds no event |
| ProtectiveRuns.AcceptedTurnMatchesExchange | app/services/protective_lifecycle.py:348-434 | After an accepted observation the durable open quantity is the live position, absent after a full close |
| ProtectiveCloses.ClosedRowIsOneTurns | app/services/protective_lifecycle.py:574-612 | Over every run from an opened trade that ends closed, one turn closed it: exit price, gross, net, commission and funding, reason, quantity and close time are exactly that look's, and the sibling flag is what that look saw of the sibling and its cancel answer, raised later only by a look that settled it |
| ProtectiveCloses.TurnTakesFillsExactlyWhen | app/services/protective_lifecycle.py:348-609 | An open trade takes a turn's fills exactly when both orders are the known ones, one side alone is filled, order, position and trade agree on the quantity, a full close has its economics and every recorded event is still among the fills; otherwise nothing changes |
| ProtectiveCloses.CleanupTurn | app/services/protective_lifecycle.py:650-704 | After the close only the sibling flag moves, exactly when a cleanup still owed sees the known sibling gone or its cancellation confirmed |
| ProtectiveCloses.RowSumsItsEvents | app/services/protective_lifecycle.py:495-573 | In an exact ledger each event carries its fill, events run in time order with ties by id text, and the row's exit quantity and notional are their sums and its last event the last of them |
| OrderEvidence.EvidenceIsVerified | app/services/order_audit.py:343-475 | What the two evidence builders hand over is about the expected order, satisfies the economics the theorems assume, and accounts for every trade-history row of its actual order, each on the expected side |
| OrderEvidence.FillsForOrder | app/services/order_audit.py:758-790 | The fill reader's loop with its identity set, by the same definition as the protective lifecycle's, first defect included |
| OrderAudit.OrderAuditService.Persist | app/services/order_audit.py:483-546 | The transaction with its loop over fills equals the abstract audit and rolls back on any conflict |
| OrderAuditRuns.RunsKeepSound | app/services/order_audit.py:483-618 | Over every sequence of audits, executed and average are exactly the sum and weighted mean of the recorded fills, all of them the order's own, and the status fits |
| OrderAuditRuns.RunsMakeProgress | app/services/order_audit.py:566-618 | Between any two moments: immutable fields equal, fills and executed only grow, status only forward, and a FILLED order is frozen but for its time stamps |
| OrderAuditRuns.RegressionChecksAreImplied | app/services/order_audit.py:598-607 | Evidence that passes the fill-subset and fill-identity checks cannot trip the quantity-regression or average-conflict check |
| OrderAuditRuns.RecordReadsBack | app/services/order_audit.py:664-725 | A persisted audit passes the column parity checks and reads back as exactly the record written |
| OrderAuditRuns.RunsReadBack | app/services/order_audit.py:483-725 | However audits succeed and fail, no canonical row ever becomes unreadable |
| OrderAuditRules.AuditExactly | app/services/order_audit.py:483-660 | An audit is accepted exactly when the evidence is about the row's order, continues its payload and contradicts no recorded fill, in fields; it then writes every column and payload field from the evidence and its fills and nothing else |
| OrderAuditRules.ReadsBackExactlyWhen | app/services/order_audit.py:664-725 | A row reads back exactly when it is canonical, columns and payload agree one by one and its economics cohere |
| OrderAuditRules.AcceptedIdentityStays | app/services/order_audit.py:548-564 | Once accepted, a row carries its evidence's signal, trade, client and exchange ids and keeps them over every later run |
| OrderAuditRules.RunsKeepIdentity | app/services/order_audit.py:548-564 | Whatever any row says of signal, trade and exchange order it says after every run; client id and creation time never change |
| OrderAuditRules.EvidenceExactlyWhen | app/services/order_audit.py:371-481 | Evidence is handed over exactly when the reported order is the expected one by ids, side and size, its fills are readable and what it states, its status fits them and a finished guard fits the trade's exit |
| OrderAuditRules.EconomicsExactlyWhen | app/services/order_audit.py:793-850 | The economics check passes exactly when status, quantities, average and actual order cohere as stated in fields |
| AccountSnapshot.EveryInterleavingIsSound | app/services/account_snapshot.py:194-232 | Every interleaving: one refresh at most, hits plus refreshes count the successful gets, a forced get returns its own fetch or a later publication, an unforced one its own fetch or one within the bound |
| AccountSnapshot.InvalidationFencesExactlyWhenIdle | app/services/account_snapshot.py:187-192 | Calls begun after an invalidation see only data fetched after it, whatever happens, if and only if no refresh was in flight |
| AccountSnapshot.ForcedGetIsFreshExactlyWhenIdle | app/services/account_snapshot.py:207-237 | Any answer a forced get receives carries data whose fetch began no earlier than the call, whatever happens next, if and only if no refresh was in flight when it began |
| AccountSnapshot.ForcedGetMayShareAnEarlierFetch | app/services/account_snapshot.py:207-219 | The run behind the converse: a refresh in flight answers a forced get with data fetched before the call |
| AccountSnapshot.CallsAreServed | app/services/account_snapshot.py:194-220 | The cache answers a call exactly when the stored snapshot is within the bound, or for a forced waiter is another one than the call saw; otherwise the caller waits exactly while another refreshes and else refreshes itself |
| AccountSnapshot.RefreshesEnd | app/services/account_snapshot.py:187-237 | What a success, a failure and an invalidation leave of every field |
| AccountSnapshot.AccountSnapshotService.Enter | app/services/account_snapshot.py:197-219 | The first critical section equals its step |
| AccountSnapshot.AccountSnapshotService.Wake | app/services/account_snapshot.py:207-219 | The section after `wait` equals its step |
| SignalService.SignalService.Synchronize | app/services/signals.py:143-176 | The loops over candidates and records followed by pruning equal the store's definition |
| SignalService.RunsKeepSound | app/services/signals.py:118-322 | After every run: the two maps are inverse, size is within the limit, each history is numbered with distinct neighbours and ends in the current lifecycle, versions cover histories, terminal time is set exactly for terminal records |
| SignalRules.SynchronisationMirrorsTheScanner | app/services/signals.py:143-176 | After a synchronisation every shown candidate has its record as sighted, field by field, and a record not shown is invalidated exactly when it is living and the completed scan is not older than it |
| SignalRules.AcceptExactly | app/services/signals.py:178-236 | What one sighting writes: a first record, the candidate's values under the next version with a history line exactly when the lifecycle moved, or nothing |
| SignalRules.BlockEndsTheLiving | app/services/signals.py:118-141 | A risk block ends the living record of its signal, field by field, and touches nothing else |
| SignalRuns.RetainedTerminalNeverChanges | app/services/signals.py:118-176 | Over every run, a terminal record that is retained throughout keeps lifecycle, history and terminal time |
| SignalRuns.BlockLastsExactlyWhileRetained | app/services/signals.py:118-322 | Over every run, a blocked record is the same blocked record at every moment if and only if it is retained at every moment |
| SignalRuns.TerminalStaysDeadExactlyUnlessRevived | app/services/signals.py:143-322 | Over every run, a terminal record's candidate is never live again if and only if no later call finds the record dropped, shows the candidate as live, leaves its signal unblocked and keeps the new record |
| SignalRuns.BlocksAreForgotten | app/services/signals.py:300-322 | For every record limit, a run in which a blocked record is displaced by other live candidates and its candidate, shown again, becomes a new live signal |
| SignalStore.PruningSparesTheLiving | app/services/signals.py:300-322 | No ACTIVE record is pruned while a WATCH or terminal one survives |
| SignalService.SignalService.MarkRiskBlocked | app/services/signals.py:118-141 | Only a live record is blocked; the answer is terminal |
| ScannerTombstones.ScannerService.SelectDiscovered | app/services/scanner_full.py:185-250 | The selection loop is a chain of admissions that stops at the selection limit |
| ScannerTombstones.RunsKeepSound | app/services/scanner_runtime.py:587-629 | Over every interleaving of scans and refreshes: contexts are exactly those of active candidates, terminal candidates and only they bear tombstones, payloads and cooldowns stay within limits, tombstones are never lifted |
| ScannerRules.AdmissionExactly | app/services/scanner_full.py:185-250 | A discovered candidate is turned away exactly when its id ended before or its key is cooling down; otherwise stored, QUALIFIED if it was, with a context exactly when it is not over; an ended one is buried and the limits applied |
| ScannerRules.RefreshExactly | app/services/scanner.py:90-215 | A refresh moves an active candidate only: it ends, keeps its lifecycle and time, or nothing changes |
| ScannerRules.PrunedIsTrimmed | app/services/scanner_runtime.py:587-629 | Pruning drops only ended payloads and cooldown entries, none of them later than one that is kept |
| ScannerTombstones.TerminalIdsNeverReactivate | app/services/scanner_full.py:187-198 | An id that has become terminal is never active again, even after its payload is pruned |
| ScannerTombstones.CooldownHolds | app/services/scanner_full.py:199-213 | Over every run: after a key's candidate became terminal at t, as long as the key's cooldown entry is retained, no discovery with that key before t plus the cooldown changes anything |
| ScannerTombstones.CooldownsAreLastTerminals | app/services/scanner_runtime.py:587-629 | Over every run, a stored cooldown is the last time a candidate with its key became terminal |
| ScannerTombstones.ReentryExactlyWhenForgotten | app/services/scanner_full.py:199-213 | Within its cooldown a key is admitted if and only if its entry was dropped, and then the history is full of keys that became terminal no earlier |
| ScannerTombstones.CooldownsAreForgotten | app/services/scanner_runtime.py:614-629 | It happens: for every history limit, a run in which a key is re-admitted one second after its candidate ended |
| ScannerTombstones.ScannerService.Refresh | app/services/scanner.py:90-215 | The effect of a refresh outcome on the long-lived state: one active candidate moves, or nothing does |
| ScannerTombstones.ScannerService.AppendRun | app/services/scanner_runtime.py:581-585 | Run history is the last runs up to the limit |
| Retention.Overflow | app/services/scanner_runtime.py:595-629 | Exactly the excess is dropped and nothing dropped is younger than anything kept |
| Reconcilers.Compare | app/services/position_reconciliation.py:134-254 | Reports exactly the findings that are due, and none exactly when both sides are duplicate-free and equal as maps |
| RecoveryChecks.RestartCheck | app/services/restart_recovery.py:79-232 | The restart report is clean exactly when every payload is readable, every open order NEW, the open orders are exactly the trades' protective orders, each once, and the positions agree |
| RecoveryChecks.StartupCheck | app/services/recovery.py:368-479 | Startup succeeds exactly when no regular order is open, the open orders are exactly the trades' guards, the positions agree, and the exchange confirms each trade's filled entry and both guards |
| RecoveryChecks.AgreedOrdersAreTheGuards | app/services/recovery.py:403-407 | Agreement read without the dictionaries: an order is open under its ids and symbol exactly when it is a guard of some trade |
| RecoveryChecks.ReportIsCleanExactlyWhenNoGuardFills | app/services/restart_recovery.py:174-192 | After an accepted startup the restart report on the same evidence is clean if and only if no guard is PARTIALLY_FILLED |
| ActiveTrades.VerifyActive | app/services/active_trade_authority.py:158-225 | Rejects nothing exactly when both sides agree and every open position has a positive entry price; verifies exactly the matching trades |
| PartialCloses.PartialCloseBlocksReconcilers | app/services/position_reconciliation.py:228-242 | After a verified partial close the live position is positive but below the entry quantity every reconciler compares with, so none of them accepts |
| PartialCloses.SomethingRemains | app/services/protective_lifecycle.py:400-434 | A recorded partial close leaves a live position strictly between zero and the entry quantity, equal to the durable open quantity |
| Universe.UniverseService.Build | app/services/universe.py:99-343 | Every raw row ends as exactly one candidate or one rejection, counted and by name; ranks 1..n, distinct symbols, every candidate within all filters |
| UniverseRules.EligibleExactlyWhen | app/services/universe.py:74-256 | A row is a candidate exactly when it is a fresh trading USDT perpetual with base, volume, two-sided book and narrow spread, in fields; the record it then gives |
| UniverseRules.RejectedForATrueReason | app/services/universe.py:74-256 | Every rejection code is true of its row |
| UniverseRules.RankedInFields | app/services/universe.py:257-312 | In each ranking no later record is ahead of an earlier one by its measure, then volume, spread and symbol |
| Universe.SelectionLaws | app/services/universe.py:257-320 | The number selected is min(limit, eligible) and the ten most liquid are included as far as the limit goes |
| Universe.HybridLaws | app/services/universe.py:265-318 | The same for the hybrid buckets, for every distribution of movers |
| Universe.LeftOutMeansOutranked | app/services/universe.py:265-318 | Every eligible symbol the hybrid rule leaves out is outranked by ten more liquid, ten more active and, if it moved, fifteen stronger gainers or losers, all of them selected |
| Universe.AddUniqueLaws | app/services/universe.py:269-280 | A bucket appends distinct symbols from its pool and stops short of its target only when the pool is exhausted or the universe full |
| Universe.RankedIsSorted | app/services/universe.py:257-310 | A ranking is a rearrangement in which nothing follows what it should precede |
| SharedSnapshots.SharedCandles.Lookup | app/services/shared_snapshots.py:224-245 | A hit is exactly the full-length direct fetch at the expected boundary |
| SharedSnapshots.ReuseIsTransparent | app/services/shared_snapshots.py:154-191 | A reusable snapshot, sliced to any limit, equals the direct fetch |
| SharedSnapshots.FreshSnapshotIsReusable | app/services/shared_snapshots.py:154-165 | A stored fetch serves a lookup for the same boundary exactly when it holds as many candles as are asked for |
| SharedSnapshots.MissIsDirectUnlessTheBoundaryMoved | app/services/shared_snapshots.py:247-277 | A miss equals the direct fetch if and only if no boundary passed between the time lookup and the rows or the history is too short; otherwise it is shorter than asked |
| SharedSnapshots.SharedCandles.Fetch | app/services/shared_snapshots.py:247-297 | Filtering, slicing and storing keep the cache a stretch of the true history |
| SharedSnapshots.SharedIndicators.Build | app/services/shared_snapshots.py:328-382 | A cached series has the points and structure of recomputation from its candles |

## Left out

- HTTP clients, payload parsing, SQL, JSON, locks, leases and schedulers: a transaction is a step, an answer is a value, a lease is a boolean the worker reads.
- Audit texts and reasons: copied or displayed, never decided on.
- Retrying an activation after its emergency close: the theorems say what a returned trade then means, not that a position is live.
- Queue liveness: a command can stay SUBMITTING forever, see above.
- Fencing of `transition` by claim token: the source has none, so worker guarantees are for one live worker.
- The decision-keyed signal store (app/services/decision_signals.py): the same split as `SignalStore` with another key.
- SignalStore.PruningSparesTheLiving: ties within a rank are decided by time and signal id, whose hash order is modelled by the order of the hashed text.
- OrderAudit.OrderAuditService.Persist: the rows of one symbol; fill rows of other symbols have other keys and are never read.
- ProtectiveLedger.ProtectiveLifecycleService.Reconcile: one trade at a time; the result of the closed-economics verification (app/services/protective_lifecycle.py:611-648, two journal services) is an input, and events recorded for another trade of the same signal are not modelled.
- Universe.UniverseService.Build: its time-bounded cache and the final sort of the rejection list are not modelled.
- SharedSnapshots.SharedCandles.Lookup: one symbol and interval; metrics other than hits, misses and fetches and the time cache are not modelled.
- Dictionary insertion order: findings and rejections are compared as sets.
- RecoveryChecks.StartupCheck: the scanner and signal revalidation that follows a clean reconciliation is not modelled.
- Opportunity and strategy-separated scanner policies, journal, manual close, notifications and health endpoints: thin variants or easier than what is proved.
