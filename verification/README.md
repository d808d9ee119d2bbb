# Verified model of the Strategy #1 trading path

A Dafny model of the path a two-venue arbitrage takes through the backend, from a market quote to a
settled execution, and of the evidence and accounting beside it.

| part | files |
|---|---|
| shared | `Wrappers`, `Names`, `InsertionMap`, `Percentile`, `Decisions` |
| market cache: one map, four indexes, a three-case merge, published events | `CacheCore`, `CacheIndex`, `MarketCache` |
| event-driven scanner, and the cache events that wake it | `Scheduler`, `Wakeups` |
| grouping, venue pairs, opportunity gates, counters and the whole scan | `PairScan`, `OpportunityRules`, `CapitalCaching`, `ScanLedger`, `ScanResults`, `OpportunityEngine` |
| order-time depth walk, stressed economics, wallet holds | `DepthWalk`, `OrderTimeSafety` |
| two-leg execution as an effect protocol, and the coordinator that follows it | `ExecutionProtocol`, `Holds`, `Coordinator`, `ApprovedExecution` |
| pilot evidence per route, its history, its board, its snapshots | `PilotRoute`, `PilotHistory`, `PilotEvidence`, `PilotWindow`, `PilotBoard`, `PilotSnapshot`, `PilotExamples`, `PilotService` |
| timing headroom and calibration log | `Headroom`, `Calibration` |
| bounded P&L list and its reload | `PnLList`, `PnLReload`, `PnLService` |
| rejection window | `RejectionStore` |
| fee registry | `Fees` |

Components that change fields in place are classes whose methods follow the source statement by
statement and are tied to functions on values; what the program promises is then proved of those
functions, over every input and every run. Services outside the model answer through a `Ports`
value, so every answer they could give is covered. `dafny verify dfyconfig.toml` checks the project.

Where a promise of the comments is not kept by the code, the code is modelled as it is and the exact
condition is proved:

- A ticker without best prices but with bid, ask and quantities makes a quote executable without an
  event (`MarketCache.SilentOperationKeepsView`, `HiddenBookExample`).
- Keys join exchange and market with a colon: with a colon in an exchange name one venue overwrites
  another, in the cache and in the fee registry (`CacheIndex.PutProjected`, `Fees.OthersKeptExactly`).
- An upsert that takes away the second executable venue of a market wakes nobody, and neither does a
  ticker with a hidden book that brings it (`Wakeups.UnnoticedRouteLoss`, `NewRouteWakesExactly`).
- A microtask left over from before a stop breaks the spacing of market-data scans
  (`Scheduler.SpacingExactlyWhenClean`, `StaleCallbackExample`).
- A dispatch that rejects with `null` is reported as failed and its holds are released
  (`ExecutionProtocol.RejectedDispatchSettles`, `Coordinator.ArbitrageExecutionCoordinator.Execute`).
- Fills at the approved limits can cost more than the stressed cost and net less than the profit floor
  (`OrderTimeSafety.LimitWithinStressExactly`, `LimitsKeepFloorExactly`, `LimitsBreakFloorExample`).
- The cache's normal form of a market keeps separators that the careful grouping drops
  (`PairScan.GroupingsAgreeExactly`).
- Above a dispatch budget of 225 ms the 25 ms floor takes limit plus budget over the 250 ms ceiling
  (`Headroom.CeilingKeptExactly`, `OverCeilingExactly`).
- A tie in completion time across the 1,000-record cut, or a repeated opportunity and time before it,
  is resolved differently in memory and on reload (`PnLReload.ReloadsExactly`,
  `PnLService.RestartLosesOldest`, `RestartLosesTied`).
- A route's generation is counted again once a window of others was counted since, or once the route
  was given up to make room and made anew (`PilotBoard.BoardCountsAgainExactly`,
  `PilotExamples.ServiceCountsAgain`, `ServiceForgets`).

Two promises are kept under the configuration the program runs with, and exactly when they would not be
under another is proved as well:

- The positive-spread prefilter of the scan changes nothing: the default spread floor of 0.05 percent
  leaves no pair without a gain that meets it (`ScanLedger.DefaultScansAgree`, `PreFilterIsExact`).
- The validator of pilot snapshots accepts the service's own snapshots: its lists keep at most 512
  samples, of 10,000 allowed (`PilotSnapshot.DefaultSavedIsValid`, `SavedIsValidExactly`).

## Model

| member | source | states |
|---|---|---|
| `ExecutionProtocol.DispatchIsLicensed` | backend/src/arbitrage/execution/ArbitrageExecutionCoordinator.ts:282-763 | In every accepted journal a two-leg dispatch comes after, in this order: seven passed checks and none failed, a consumed authority with a positive quantity within depth, an approving last look with both limits, a fee read, both holds approved for that quantity at the buy limit plus fee, and a successful pair bind; the orders carry that quantity and those limits |
| `ExecutionProtocol.OutcomeDecidesCapital` | backend/src/arbitrage/execution/ArbitrageExecutionCoordinator.ts:865-925 | Over every finished execution: at most one dispatch, one finalize exactly when the authority was consumed, and the holds stay open exactly when the status is POSSIBLE_EXPOSURE or RECOVERY_REQUIRED, otherwise exactly one of commit (some fill) and release (no fill) |
| `ExecutionProtocol.CountFollowsPhase` | backend/src/arbitrage/execution/ArbitrageExecutionCoordinator.ts:258-1122 | How often each effect has happened is decided by the phase alone, after every prefix of a journal |
| `ExecutionProtocol.HeldByStatus` | backend/src/arbitrage/execution/ArbitrageExecutionCoordinator.ts:1013-1040 | The holds-stay-open condition and the two statuses that announce it are the same condition |
| `ExecutionProtocol.StagedOrderFlattens` | backend/src/arbitrage/execution/ArbitrageExecutionCoordinator.ts:1328-1442 | A recovery order is staged only for unequal fills, at most once; its side, venue and quantity bring the net base position of the two legs to zero, and its price is the limit of the other side |
| `ExecutionProtocol.StagedOrderIs` | backend/src/arbitrage/execution/ArbitrageExecutionCoordinator.ts:1328-1442 | With a bought and b sold it sells a - b at the buy venue and the sell limit, or buys b - a at the sell venue and the buy limit |
| `ExecutionProtocol.ReportedFillsDecide` | backend/src/arbitrage/execution/ArbitrageExecutionCoordinator.ts:865-925 | With a bought and b sold, whatever the legs' statuses, the holds are committed exactly for a = b > 0 and released exactly for a = b = 0, and neither under possible exposure |
| `ExecutionProtocol.RejectedDispatchSettles` | backend/src/arbitrage/execution/ArbitrageExecutionCoordinator.ts:764-925 | A finished execution whose dispatch rejected has committed nothing, and has released the holds exactly when it rejected with null |
| `Holds.DispatchIsPaidFor` | backend/src/arbitrage/execution/ArbitrageExecutionCoordinator.ts:536-763 | In every accepted journal a dispatch comes after a fee read and an approved reservation whose quote hold, at that fee, pays for every list of fills within the dispatched buy order, and whose base hold is the quantity sold, each on its own exchange |
| `Coordinator.ArbitrageExecutionCoordinator.Preflight` | backend/src/arbitrage/execution/ArbitrageExecutionCoordinator.ts:263-376 | The attempt is clear exactly when all seven checks passed, whatever else is answered |
| `ExecutionProtocol.ConnectionsReadLast` | backend/src/arbitrage/execution/ArbitrageExecutionCoordinator.ts:263-376 | In every accepted journal an adapter is asked for its status only after every other check has passed |
| `Coordinator.ArbitrageExecutionCoordinator.Execute` | backend/src/arbitrage/execution/ArbitrageExecutionCoordinator.ts:258-1122 | Orders are sent exactly when every check, answer and condition is favourable, and then once; every path, thrown errors included, leaves a journal the protocol accepts and that holds only the ports' answers, with one finalize exactly when the authority was consumed; from the quantities the legs report, whatever their statuses, follow the matched and unmatched quantities, the status, the fate of the holds and whether a recovery intent is staged; a rejected dispatch is settled by whether it rejected with null, and a blocked result is empty |
| `Coordinator.OrdersAre` | backend/src/arbitrage/execution/ArbitrageExecutionCoordinator.ts:268-763 | The two orders of any execution name the opportunity's market and its two trimmed, lower-cased venues, the authorized quantity and the approved limits, behind a hold on each venue for exactly them |
| `Coordinator.RecoveryOrderIs` | backend/src/arbitrage/execution/ArbitrageExecutionCoordinator.ts:1310-1460 | After unequal fills, the one staged order is the excess: sold at the sell limit on the buy venue, or bought at the buy limit on the sell venue |
| `Coordinator.SendsExactly` | backend/src/arbitrage/execution/ArbitrageExecutionCoordinator.ts:258-763 | Everything that must hold of the opportunity, the services and the named assets for orders to leave, one by one |
| `Coordinator.ArbitrageExecutionCoordinator.Attempt` | backend/src/arbitrage/execution/ArbitrageExecutionCoordinator.ts:258-1122 | The result is BLOCKED exactly when nothing was sent, and otherwise reports the outcome of the dispatch |
| `Coordinator.ArbitrageExecutionCoordinator.UseAuthority` | backend/src/arbitrage/execution/ArbitrageExecutionCoordinator.ts:403-596 | A consumed authority leads to a dispatch exactly when its quantity is within depth, the last look is usable, assets and fee resolve, the holds are approved and the pair binds |
| `Coordinator.ArbitrageExecutionCoordinator.ReserveAndSend` | backend/src/arbitrage/execution/ArbitrageExecutionCoordinator.ts:536-763 | Reserve, bind and send in order; a failed bind releases the hold and finalizes once |
| `Coordinator.ArbitrageExecutionCoordinator.Settle` | backend/src/arbitrage/execution/ArbitrageExecutionCoordinator.ts:865-1074 | Matched and unmatched quantities add up to each leg's fill, and the flags and the status follow from the outcome |
| `Coordinator.ArbitrageExecutionCoordinator.CloseOut` | backend/src/arbitrage/execution/ArbitrageExecutionCoordinator.ts:1075-1122 | After the holds the P&L is recorded and the authority finalized once, and the outcome and what was staged are carried through |
| `Coordinator.ArbitrageExecutionCoordinator.SettleHolds` | backend/src/arbitrage/execution/ArbitrageExecutionCoordinator.ts:1071-1098 | The holds are kept exactly for an outcome to be held, otherwise committed or released by whether anything filled |
| `Coordinator.ArbitrageExecutionCoordinator.StageRecoveryIntent` | backend/src/arbitrage/execution/ArbitrageExecutionCoordinator.ts:1328-1442 | A recovery order is staged exactly when the fills differ, the limit of the leg it trades is positive and the port works; failing to stage does not change how the execution ends |
| `Coordinator.ArbitrageExecutionCoordinator.BlockAndFinalize` | backend/src/arbitrage/execution/ArbitrageExecutionCoordinator.ts:403-422 | A block after the authority was spent finalizes it exactly once and sends nothing |
| `Coordinator.ValidateOpportunity` | backend/src/arbitrage/execution/ArbitrageExecutionCoordinator.ts:1124-1246 | No complaint exactly when every demand on the opportunity is met, and each complaint exactly when its own demand is not |
| `Coordinator.ResolveAssets` | backend/src/arbitrage/execution/ArbitrageExecutionCoordinator.ts:1444-1499 | When assets resolve, the market name is the asset followed by its quote asset, or the asset alone where it does not end in it; neither is empty |
| `Coordinator.InferredAssets` | backend/src/arbitrage/execution/ArbitrageExecutionCoordinator.ts:1444-1499 | Without a declared quote asset a market named after an asset and USDT, USDC, INR, BTC or ETH splits into the two |
| `Coordinator.DeclaredAssets` | backend/src/arbitrage/execution/ArbitrageExecutionCoordinator.ts:1444-1499 | A declared quote asset is taken in its normal form, and resolving fails where nothing else is left of the name |
| `Coordinator.SuccessMeansBalanced` | backend/src/arbitrage/execution/ArbitrageExecutionCoordinator.ts:1008-1070 | A reported success has two equal fills, nothing unmatched and no hold left open |
| `ApprovedExecution.ExecuteApproved` | backend/src/arbitrage/execution/ArbitrageExecutionCoordinator.ts:424-763 | An execution whose last look is the order-time evaluation of the authorized quantity sends orders only if every gate approves, at that quantity and those limits, and stages a recovery order for a residual exactly when the port works |
| `ApprovedExecution.DispatchIsApproved` | backend/src/arbitrage/execution/ArbitrageExecutionCoordinator.ts:424-763 | In any accepted journal under such a last look, a dispatch has the quantity and the limits of an approved evaluation |
| `ApprovedExecution.ResidualIsStageable` | backend/src/arbitrage/execution/ArbitrageExecutionCoordinator.ts:1328-1442 | Under an approved last look the price of a recovery order is never missing, so every residual can be staged |
| `DepthWalk.WorstConsumedExact` | backend/src/arbitrage/execution/StrategyOneOrderTimeSafetyService.ts:822-878 | On a best-first book of positive levels the walk returns a price exactly when total depth covers the quantity up to the code's tolerance; depth at or better than that price covers it likewise, depth strictly better does not |
| `DepthWalk.LimitNeedsDepth` | backend/src/arbitrage/execution/StrategyOneOrderTimeSafetyService.ts:822-878 | A limit comes back exactly when the depth falls short of the quantity by at most its 1e-9 part, or 1e-12 for quantities under 0.001 |
| `DepthWalk.WalkedLevels` | backend/src/arbitrage/execution/StrategyOneOrderTimeSafetyService.ts:836-877 | The levels a walk consumes are all good ones and hold what it fills |
| `DepthWalk.WalkFillsWhatItCan` | backend/src/arbitrage/execution/StrategyOneOrderTimeSafetyService.ts:836-877 | The levels consumed add up to the quantity, or to the whole book if that is less |
| `DepthWalk.ResolveWorstConsumedPrice` | backend/src/arbitrage/execution/StrategyOneOrderTimeSafetyService.ts:822-878 | The loop returns the last price of the walk, none when depth runs out beyond the tolerance, and an error on the first bad level it reaches |
| `DepthWalk.CalculateVwap` | backend/src/orderbook/calculators/VWAPCalculator.ts:5-93 | The average price's total is the sum of consumed quantity times price, over the same walk as the limit price |
| `OrderTimeSafety.Evaluate` | backend/src/arbitrage/execution/StrategyOneOrderTimeSafetyService.ts:229-710 | A report is APPROVED exactly when every gate holds, its limits are the worst prices consumed, and the reasons of quantity, age, missing books, skew and slowness are given exactly when they apply |
| `OrderTimeSafety.ApprovedExactly` | backend/src/arbitrage/execution/StrategyOneOrderTimeSafetyService.ts:229-710 | An input is approved exactly when all of its own figures meet the gates: quantity, age, both contracts, books, skew, depth, fees, net percentage and duration |
| `OrderTimeSafety.ApprovedHasDepth` | backend/src/arbitrage/execution/StrategyOneOrderTimeSafetyService.ts:489-514 | The levels an approved quantity consumes hold all of it but its 1e-9 part, or but 1e-12 |
| `OrderTimeSafety.EconomicsInFigures` | backend/src/arbitrage/execution/StrategyOneOrderTimeSafetyService.ts:543-601 | Fees, buffer, net and net percentage from the walked cost and proceeds with the buy slippage on the one and the sell slippage off the other |
| `OrderTimeSafety.ApprovedNets` | backend/src/arbitrage/execution/StrategyOneOrderTimeSafetyService.ts:543-645 | The profit floor of an approval in the figures of the policy alone, slippages written out |
| `OrderTimeSafety.ValidateVenueContract` | backend/src/arbitrage/execution/StrategyOneOrderTimeSafetyService.ts:712-780 | Silent exactly when the contract is present, supports fill-or-kill and a private fill stream, and each reason exactly when its own part is missing |
| `OrderTimeSafety.ValidateBookAge` | backend/src/arbitrage/execution/StrategyOneOrderTimeSafetyService.ts:782-820 | Silent exactly when the book is not from the future and within the contract's age limit |
| `OrderTimeSafety.WalkBooks` | backend/src/arbitrage/execution/StrategyOneOrderTimeSafetyService.ts:440-601 | Both walks, the depth check and the stressed economics, on every input, and each reason exactly when it applies |
| `OrderTimeSafety.ApprovedMeansProfitFloor` | backend/src/arbitrage/execution/StrategyOneOrderTimeSafetyService.ts:543-645 | APPROVED implies that any realised buy cost at most the stressed cost and sell proceeds at least the stressed proceeds net, after both taker fees, at least the safety buffer plus the minimum percentage of the stressed buy cost |
| `OrderTimeSafety.SellFeeBelowWhole` | backend/src/arbitrage/execution/StrategyOneOrderTimeSafetyService.ts:543-601 | No approval survives a sell fee of 100 percent or more |
| `OrderTimeSafety.HoldCoversLimitFills` | backend/src/arbitrage/execution/ArbitrageExecutionCoordinator.ts:566-596 | The quote hold covers cost and taker fee of every list of buy fills within the quantity and at or below the limit |
| `OrderTimeSafety.HoldIsLeast` | backend/src/arbitrage/execution/ArbitrageExecutionCoordinator.ts:582-585 | No smaller hold does |
| `OrderTimeSafety.WalkWithinHolds` | backend/src/arbitrage/execution/ArbitrageExecutionCoordinator.ts:536-596 | The depth walk itself is such a list, and the base hold covers the sell walk |
| `OrderTimeSafety.LimitWithinStressExactly` | backend/src/arbitrage/execution/StrategyOneOrderTimeSafetyService.ts:459-601 | On an approved input every full fill at or within the reported buy limit costs at most the stressed cost, on which approval is based, exactly when quantity times limit does |
| `OrderTimeSafety.LimitsKeepFloorExactly` | backend/src/arbitrage/execution/StrategyOneOrderTimeSafetyService.ts:459-645 | And every pair of full fills at or within both reported limits nets, after fees, at least the profit floor exactly when trading the whole quantity at the two limits does |
| `OrderTimeSafety.LimitsBreakFloorExample` | backend/src/arbitrage/execution/StrategyOneOrderTimeSafetyService.ts:459-645 | Under the built-in policy and configuration: asks of 1 at 1 and 1 at 2, a bid of 2 at 1.6, quantity 2 and fees of 0.1 percent are approved with limits 2 and 1.6, and trading at both limits loses money |
| `OrderTimeSafety.ApprovedLimitsPositive` | backend/src/arbitrage/execution/StrategyOneOrderTimeSafetyService.ts:602-645 | The limits of an approved report are positive |
| `Scheduler.NoLostWakeup` | backend/src/arbitrage/services/OpportunityDiagnosticsRunner.ts:453-621 | After an admitted update a scan is queued, timed or owed by the scan in progress in every later state until one starts or stop runs |
| `Scheduler.ArmedLeadsToScan` | backend/src/arbitrage/services/OpportunityDiagnosticsRunner.ts:546-791 | From any such state a market-data scan is at most a finish and one callback away |
| `Scheduler.RunKeepsInv` | backend/src/arbitrage/services/OpportunityDiagnosticsRunner.ts:546-621 | The microtask flag and the event timer are never both set, over every run |
| `Scheduler.StartsAreScans` | backend/src/arbitrage/services/OpportunityDiagnosticsRunner.ts:579-713 | A handler starts a scan exactly when it leaves one in progress that was not, at its own time; any other leaves the last start alone, and a stopped runner scans only by being started |
| `Scheduler.TriggersStartScans` | backend/src/arbitrage/services/OpportunityDiagnosticsRunner.ts:250-348 | Idle and running, each trigger starts its scan; running and the subscription follow start and stop alone |
| `Scheduler.WakeupIsTimed` | backend/src/arbitrage/services/OpportunityDiagnosticsRunner.ts:546-621 | A wake-up that nothing covers is taken over at the earliest time the gap allows, at once or by a timer for exactly then |
| `Scheduler.UpdateOutsideScan` | backend/src/arbitrage/services/OpportunityDiagnosticsRunner.ts:453-544 | An admitted update outside a scan changes nothing while a callback is queued or the timer is not due |
| `Scheduler.BusyScannerOwes` | backend/src/arbitrage/services/OpportunityDiagnosticsRunner.ts:623-713 | During a scan an admitted update and the event callbacks leave one scan owed, the other triggers nothing |
| `Scheduler.CleanRunsWellSpaced` | backend/src/arbitrage/services/OpportunityDiagnosticsRunner.ts:482-621 | In a period that no leftover callback enters, any two market-data scans start at least the minimum gap apart |
| `Scheduler.SpacingExactlyWhenClean` | backend/src/arbitrage/services/OpportunityDiagnosticsRunner.ts:250-348 | All continuations of a start are well spaced exactly when no callback from before the last stop is still queued |
| `Scheduler.StaleCallbackExample` | backend/src/arbitrage/services/OpportunityDiagnosticsRunner.ts:250-348 | An update, a stop and a start before the microtask has run lead to such a state from the initial one, in every event-driven configuration, scanning at start or not |
| `Scheduler.RunKeepsTimes` | backend/src/arbitrage/services/OpportunityDiagnosticsRunner.ts:546-621 | The clock is past the last start and an armed timer ends a gap after it |
| `Scheduler.UpdateDueInTime` | backend/src/arbitrage/services/OpportunityDiagnosticsRunner.ts:482-620 | An update admitted at r outside a scan has its scan due at r plus the gap at the latest, from then on until a scan starts |
| `Scheduler.PendingDueAfterFinish` | backend/src/arbitrage/services/OpportunityDiagnosticsRunner.ts:646-791 | One admitted during a scan is due a gap after that scan's start once it finishes |
| `Scheduler.OpportunityDiagnosticsRunner.HandleExecutableUpdate` | backend/src/arbitrage/services/OpportunityDiagnosticsRunner.ts:453-544 | The handler does to the fields what one update step does to the state |
| `Scheduler.OpportunityDiagnosticsRunner.ScheduleEventEvaluation` | backend/src/arbitrage/services/OpportunityDiagnosticsRunner.ts:546-621 | At once by microtask when the gap has passed, otherwise by one timer for the rest of it, and never twice |
| `Scheduler.OpportunityDiagnosticsRunner.BeginEvaluation` | backend/src/arbitrage/services/OpportunityDiagnosticsRunner.ts:623-713 | A scan that starts takes over what was pending; one asked for during another leaves it pending |
| `Scheduler.OpportunityDiagnosticsRunner.FinishEvaluation` | backend/src/arbitrage/services/OpportunityDiagnosticsRunner.ts:775-791 | A finished scan reschedules exactly when something arrived during it |
| `Scheduler.OpportunityDiagnosticsRunner.RunMicrotask` | backend/src/arbitrage/services/OpportunityDiagnosticsRunner.ts:579-600 | A queued callback scans whenever its flag is still set, whichever period queued it |
| `Scheduler.OpportunityDiagnosticsRunner.StartRunner` | backend/src/arbitrage/services/OpportunityDiagnosticsRunner.ts:250-297 | Starting scans at once and keeps no pending wake-up |
| `Scheduler.OpportunityDiagnosticsRunner.StopRunner` | backend/src/arbitrage/services/OpportunityDiagnosticsRunner.ts:299-348 | Stopping clears flags and timers but not a queued callback |
| `Wakeups.PublishedChangeWakesScanner` | backend/src/arbitrage/services/OpportunityDiagnosticsRunner.ts:1003-1023 | Every published invalidation, removal and clear, and every upsert that leaves two executable venues, sets a scan coming in a running idle or busy scanner |
| `Wakeups.UnnoticedRouteLoss` | backend/src/services/cache.service.ts:109-233 | An upsert that takes a market below two executable venues is published and not scheduled; it happens exactly when there are two, this venue is one of them, and the incoming fields, falling back to the stored ones, are no top of book |
| `Wakeups.RouteLossExample` | backend/src/services/cache.service.ts:109-233 | Two venues with a book, then one native update of one of them with ask quantity 0: one venue left, the event published, nothing scheduled |
| `Wakeups.LostRouteWakesExactly` | backend/src/arbitrage/services/OpportunityDiagnosticsRunner.ts:1003-1023 | Over all operations, one that takes a market below two executable venues is always published, and scheduled exactly when it is not an update |
| `Wakeups.NewRouteWakesExactly` | backend/src/arbitrage/services/OpportunityDiagnosticsRunner.ts:1003-1023 | Over all operations, one that brings a market to two or more executable venues is published and scheduled exactly when it is not a ticker with a hidden book |
| `Wakeups.SilentRouteExample` | backend/src/services/cache.service.ts:917-946 | One venue with a book, then a ticker of another one with a hidden book: two executable venues and no event |
| `Wakeups.VenuesAfterPut` | backend/src/services/cache.service.ts:626-733 | What one stored quote does to the set of executable venues of its market |
| `CacheCore.RunKeepsFields` | backend/src/services/cache.service.ts:948-1331 | After any run of mutations each quote's flag is the top-of-book test on its stored fields and its spread is ask minus bid |
| `CacheCore.SilentKeepsView` | backend/src/services/cache.service.ts:1051-1290 | A mutation that publishes nothing keeps the executable view exactly when it is not a ticker bringing an executable book where none was |
| `CacheCore.EventMeansBook` | backend/src/services/cache.service.ts:196-233 | Every published event is about a quote that was, or now is, executable |
| `CacheIndex.PutProjected` | backend/src/services/cache.service.ts:626-733 | Indexing a quote keeps all four indexes projections of the map exactly when it replaces its own exchange's quote |
| `CacheIndex.DropProjected` | backend/src/services/cache.service.ts:735-821 | Removing an indexed quote keeps them projections, with no empty bucket |
| `CacheIndex.VenuesAreBucket` | backend/src/services/cache.service.ts:348-372 | The size of the market bucket is the number of executable venues |
| `CacheIndex.PutOverOther` | backend/src/services/cache.service.ts:1333-1345 | Overwriting another exchange's entry leaves that exchange's bucket wrong |
| `MarketCache.ReachableWellFormed` | backend/src/services/cache.service.ts:948-1331 | After any sequence of operations every stored quote's flag, spread, names and key are right |
| `MarketCache.FirstQuoteIs` | backend/src/services/cache.service.ts:948-1046 | A new quote is stored with its own fields, those that are no proper number dropped, and a ticker's best prices falling back to its plain ones |
| `MarketCache.RefreshStores` | backend/src/services/cache.service.ts:1051-1160 | A refreshing update stores each new field, keeps the stored one where there is none, and takes time and source from the update, in the quote and in the event |
| `MarketCache.TickerKeepsBook` | backend/src/services/cache.service.ts:1165-1250 | A ticker that does not refresh changes the last price alone of an executable quote, and publishes nothing |
| `MarketCache.TickerIsStored` | backend/src/services/cache.service.ts:1252-1331 | Without an executable book such a ticker is stored, the last price kept if it brings none |
| `MarketCache.RefreshesExactly` | backend/src/services/cache.service.ts:899-946 | Native quotes refresh, and tickers exactly with a complete book of their own best prices and quantities |
| `MarketCache.DestructiveOperations` | backend/src/services/cache.service.ts:403-559 | Invalidating and removing concern the named quote alone, with an event exactly when it was executable |
| `MarketCache.SilentOperationKeepsView` | backend/src/services/cache.service.ts:109-233 | An operation that publishes nothing leaves the executable view alone exactly when no ticker with a hidden book arrives |
| `MarketCache.HiddenBookExample` | backend/src/services/cache.service.ts:917-946 | A ticker without best prices but with bid, ask and quantities puts an executable quote into an empty cache without any event |
| `MarketCache.ColonFreeRunsCompatible` | backend/src/services/cache.service.ts:1333-1345 | With colon-free exchange names every operation replaces only its own exchange's quote, in every reachable state |
| `MarketCache.CollidingUpdates` | backend/src/services/cache.service.ts:1333-1345 | Two venues whose keys collide: the second update overwrites the first one's quote |
| `MarketCache.Cache.Update` | backend/src/services/cache.service.ts:109-233 | The new map and the published event are those of the merge, and the indexes stay projections exactly when no other exchange's quote is overwritten |
| `MarketCache.Cache.InvalidateExecutable` | backend/src/services/cache.service.ts:403-503 | The named quote loses its book and the right event is told |
| `MarketCache.Cache.RemoveQuote` | backend/src/services/cache.service.ts:505-559 | The named quote is gone from the map and from every index, with an event exactly when it was executable |
| `MarketCache.Cache.ClearQuotes` | backend/src/services/cache.service.ts:561-594 | Everything is gone, with one event exactly when something was executable |
| `MarketCache.Cache.IndexQuote` | backend/src/services/cache.service.ts:626-733 | Incremental indexing gives the projections of the new map |
| `MarketCache.Cache.RemoveIndexedQuote` | backend/src/services/cache.service.ts:735-821 | Incremental removal gives the projections of the smaller map |
| `MarketCache.Cache.ExecutableExchangeCount` | backend/src/services/cache.service.ts:348-372 | The admission count is the number of executable venues of the market |
| `MarketCache.Cache.PerformAll` | backend/src/services/cache.service.ts:109-594 | Any sequence of operations on colon-free exchange names run on the cache leaves every index the projection of the map, and the map that of the model's run |
| `MarketCache.Cache.Perform` | backend/src/services/cache.service.ts:109-594 | One operation, whichever it is, makes the model's map and event, and keeps the indexes projections exactly when it replaces no other exchange's quote |
| `Names.KeyInjective` | backend/src/services/cache.service.ts:1333-1345 | A key names one exchange and one market when exchange names have no colon |
| `Names.TrimDropsBlanks` | backend/src/services/cache.service.ts:948-965 | Trimming takes all white space off both ends and nothing else |
| `Names.StripNext` | backend/src/arbitrage/ComparisonEngine.ts:154-165 | Stripping keeps, in order, exactly the characters that are no separators |
| `Names.KeyCollision` | backend/src/services/cache.service.ts:1333-1345 | With a colon two venues in normal form share a key |
| `PairScan.GroupByMarket` | backend/src/arbitrage/ComparisonEngine.ts:6-116 | The careful grouping is the reference grouping of the usable quotes under their normal names |
| `PairScan.CleanedOne` | backend/src/arbitrage/ComparisonEngine.ts:6-64 | A quote is taken under its names' normal forms, or not at all where one is empty |
| `PairScan.GroupNormalizedExecutableByMarket` | backend/src/arbitrage/ComparisonEngine.ts:124-152 | The light grouping is the reference grouping of the quotes as they are |
| `PairScan.GroupingsAgreeExactly` | backend/src/arbitrage/ComparisonEngine.ts:118-152 | The two return the same snapshots exactly on lists whose quotes are all normalised in the comparison engine's sense |
| `PairScan.SeparatorsDisagree` | backend/src/arbitrage/ComparisonEngine.ts:154-165 | Any single quote whose market name has a separator is grouped differently |
| `PairScan.CacheFormKeepsSeparators` | backend/src/services/cache.service.ts:1333-1345 | Such names are in the market cache's normal form, so cache-normalised quotes alone do not qualify |
| `PairScan.GroupHoldsLatest` | backend/src/arbitrage/ComparisonEngine.ts:66-95 | A snapshot's quote for a venue is that venue's latest, the last one among equal times |
| `PairScan.HeldQuoteIsLatest` | backend/src/arbitrage/ComparisonEngine.ts:66-95 | It holds one for every venue that has a quote, and nothing else |
| `PairScan.SnapshotTime` | backend/src/arbitrage/ComparisonEngine.ts:88-92 | A snapshot's time is the largest time of its market's quotes |
| `PairScan.Generate` | backend/src/arbitrage/engines/ExchangePairGenerator.ts:12-54 | The nested loops return the tradable pairs of the snapshot |
| `PairScan.TradablePairsAreAll` | backend/src/arbitrage/engines/ExchangePairGenerator.ts:12-54 | Those are, in grid order, exactly the ordered pairs of different venues that can be bought at one and sold at the other |
| `PairScan.TradableExactly` | backend/src/arbitrage/engines/ExchangePairGenerator.ts:12-54 | A pair can be traded exactly with an executable ask with a quantity at one venue and an executable bid with a quantity at another |
| `PairScan.GeneratePositiveSpreadCandidates` | backend/src/arbitrage/engines/ExchangePairGenerator.ts:56-152 | The fast form returns the order-preserving positive-spread filter of those pairs with exact counts of all and of the rest |
| `OpportunityRules.VerdictsArePossible` | backend/src/arbitrage/engines/OpportunityEngine.ts:177-1485 | Every verdict is one of the possible ones: the tests for invalid resolved prices, invalid required or executable quantity, the second spread test and a rejection without a failing analysis can never be the reason |
| `OpportunityRules.SizedGates` | backend/src/arbitrage/engines/OpportunityEngine.ts:705-811 | With positive capital and a valid top of book, the two quantity gates never fire |
| `OpportunityRules.GeneratedPairsAreSound` | backend/src/arbitrage/engines/OpportunityEngine.ts:335-434 | On generated pairs neither price resolution nor market data is ever the reason |
| `OpportunityRules.AcceptedPays` | backend/src/arbitrage/engines/OpportunityEngine.ts:297-1485 | An accepted opportunity meets the spread floor and nets the minimum percentage after both fees, is at most either top-of-book quantity, and costs at most its quote capital |
| `OpportunityRules.AcceptedExactly` | backend/src/arbitrage/engines/OpportunityEngine.ts:177-1485 | A pair is accepted exactly when both quotes are fresh and synchronized, it can be traded, both fees are known, the gross and net margins meet the policy, both sides name a quantity, its quote capital is known and every part of its analysis passes |
| `OpportunityRules.StoppedExactly` | backend/src/arbitrage/engines/OpportunityEngine.ts:177-704 | The first of these that fails decides the other verdicts of a quotable pair |
| `OpportunityRules.EvaluatorSaysExactly` | backend/src/arbitrage/engines/OpportunityEvaluator.ts:101-838 | Each evaluator refusal is given exactly when its own gate fails and all before it hold |
| `OpportunityRules.FirstFailureNames` | backend/src/arbitrage/engines/OpportunityEngine.ts:812-1485 | The first failing part of an analysis, in a fixed order, names the rejection |
| `OpportunityRules.SharedAssetExactly` | backend/src/arbitrage/engines/OpportunityEngine.ts:1542-1612 | The quote asset is the one both venues declare, an undeclared buy side being read off the market's name |
| `OpportunityRules.InferredExactly` | backend/src/arbitrage/engines/OpportunityEngine.ts:1542-1612 | A market named after an asset and USDT, USDC, INR, BTC or ETH is quoted in that one |
| `OpportunityRules.NetOfFees` | backend/src/arbitrage/engines/OpportunityEvaluator.ts:771-815 | The percentages mean sell proceeds less fee against buy cost plus fee |
| `OpportunityRules.CapitalStaysPositive` | backend/src/arbitrage/engines/OpportunityEngine.ts:1542-1709 | A request keeps all cached reference capitals positive and returns a positive one |
| `ScanLedger.RunKeepsLedger` | backend/src/arbitrage/engines/OpportunityEngine.ts:156-1485 | After any run the evaluator's refusal counters and the market-data, net-profit and conversion counters equal the records of their code, each analysis counter equals the records whose analysis failed that part, every pair is spread-rejected or evaluated, and every pair is accepted, recorded once, or silently dropped |
| `ScanLedger.RecordedIs` | backend/src/arbitrage/engines/OpportunityEngine.ts:177-1485 | What each verdict leaves behind: one record of the pair under its code, with the analysis if there was one, or one opportunity, or nothing |
| `ScanLedger.SpreadCounterIs` | backend/src/arbitrage/engines/OpportunityEngine.ts:156-295 | The spread counter exceeds the records of its code by exactly the pairs dropped in silence, one by one or pre-filtered |
| `ScanLedger.PreFilterIsExact` | backend/src/arbitrage/engines/OpportunityEngine.ts:156-295 | Counting the pairs that do not gain and evaluating the rest leaves the same counters, records, cache and accepted list as evaluating all, exactly when no pair without a gain meets the spread floor |
| `ScanLedger.PositiveFloorStopsAll` | backend/src/arbitrage/engines/OpportunityEngine.ts:203-295 | A positive minimum spread is enough for that |
| `ScanLedger.ScansAgree` | backend/src/arbitrage/services/OpportunityService.ts:318-375 | With a positive minimum spread the hot-path scan of any snapshots equals the plain one |
| `ScanLedger.DefaultScansAgree` | backend/src/arbitrage/services/OpportunityService.ts:318-375 | So under the default policy, which the scanner always evaluates under, it does for any snapshots |
| `ScanResults.StragglerExample` | backend/src/arbitrage/engines/OpportunityEngine.ts:156-295 | Under another policy than the scanner's, with a floor that is not positive, two venues quoting one price for both sides make the two ways of evaluating differ |
| `ScanResults.InAdmitted` | backend/src/execution-quality/services/BybitExecutionUniverseService.ts:193-243 | The universe filter keeps exactly the quotes of other venues and those in eligible markets |
| `ScanResults.AdmittedInOrder` | backend/src/execution-quality/services/BybitExecutionUniverseService.ts:193-243 | It keeps them in their order |
| `ScanResults.FoundTrade` | backend/src/arbitrage/services/OpportunityService.ts:300-375 | Whatever the services answer, each accepted opportunity buys and sells at the latest admitted quotes of two different venues of one market, at a gain, both fresh and synchronized, with known fees and margins that meet the policy |
| `ScanResults.RankedIsBestFirst` | backend/src/arbitrage/services/OpportunityService.ts:376-382 | The answer is the accepted opportunities, neither more nor fewer, by falling net percentage |
| `ScanResults.RankedIsStable` | backend/src/arbitrage/services/OpportunityService.ts:376-382 | Those of equal percentage stay in the order they were found |
| `OpportunityEngine.Engine.RecordPreFilteredNonPositiveSpreads` | backend/src/arbitrage/engines/OpportunityEngine.ts:156-175 | Counts are added for positive counts only |
| `OpportunityEngine.Engine.EvaluatorEvaluate` | backend/src/arbitrage/engines/OpportunityEvaluator.ts:101-838 | Each pair bumps exactly one evaluator outcome and is recorded exactly when refused |
| `OpportunityEngine.Engine.EvaluatePrices` | backend/src/arbitrage/engines/OpportunityEvaluator.ts:554-837 | The fee gates and the economics, for any resolved prices |
| `OpportunityEngine.Engine.ResolveReferenceCapital` | backend/src/arbitrage/engines/OpportunityEngine.ts:1542-1709 | A capital in a foreign asset is a cached one at most 250 ms old and unexpired, or converted now and positive; the cache gains at most that entry and loses only expired ones |
| `CapitalCaching.CapitalIsRecent` | backend/src/arbitrage/engines/OpportunityEngine.ts:1542-1709 | Over any run of requests each such answer was converted for the same asset and amount, by this request or by one at most 250 ms earlier whose conversion has not expired |
| `CapitalCaching.CapitalRepeats` | backend/src/arbitrage/engines/OpportunityEngine.ts:1542-1709 | Under a clock that does not go back, what one request converted answers every later request for that asset and amount within 250 ms and before it expires, whatever converting gives by then and however crowded the cache gets |
| `CapitalCaching.DroppingIsUnobservable` | backend/src/arbitrage/engines/OpportunityEngine.ts:1660-1709 | Under a clock that does not go back, dropping expired entries from a crowded cache changes no answer of any run |
| `OpportunityEngine.Engine.QualifyPair` | backend/src/arbitrage/engines/OpportunityEngine.ts:319-1485 | The gates after the evaluator, in order, with their counters and records |
| `OpportunityEngine.Engine.SizeAndAnalyse` | backend/src/arbitrage/engines/OpportunityEngine.ts:705-1485 | Sizing and analysis: every failing analysis bumps its counter and one record names the first of them in priority order |
| `OpportunityEngine.Engine.Evaluate` | backend/src/arbitrage/engines/OpportunityEngine.ts:177-1485 | One call does to counters, records and cache what the verdict on the pair says |
| `OpportunityEngine.Engine.Scan` | backend/src/arbitrage/services/OpportunityService.ts:300-382 | From the admitted quotes to the ranked answer, under the default policy: on normalised quotes the scanner leaves every counter, record and accepted opportunity as careful grouping and evaluating every pair would; the answer is best first and trades only admitted, fresh and synchronized quotes with the required margins |
| `PilotRoute.GradedExactly` | backend/src/arbitrage/execution/StrategyOnePilotEquivalentPaperEvidenceService.ts:767-828 | A generation has no rejection exactly when it is an executed, executable, fresh pair of books of at most 250 ms each; the skew test never decides alone |
| `PilotRoute.ReasonsExactly` | backend/src/arbitrage/execution/StrategyOnePilotEquivalentPaperEvidenceService.ts:767-828 | Each of the seven reasons is given exactly when its own test fails |
| `PilotRoute.DispatchFreshExactly` | backend/src/arbitrage/execution/StrategyOnePilotEquivalentPaperEvidenceService.ts:790-812 | Dispatch-fresh is fresh with both books at most 190 ms old |
| `PilotRoute.GenerationCounts` | backend/src/arbitrage/execution/StrategyOnePilotEquivalentPaperEvidenceService.ts:388-456 | What a new generation is counted as, in every counter of its route |
| `PilotRoute.GenerationSamples` | backend/src/arbitrage/execution/StrategyOnePilotEquivalentPaperEvidenceService.ts:429-456 | Its ages join the cohorts it counts in, its reasons the counts of a rejected one |
| `PilotRoute.EconomicsCounts` | backend/src/arbitrage/execution/StrategyOnePilotEquivalentPaperEvidenceService.ts:517-554 | The bands divide at 0.3 and 0.5 percent net, and each decision, liquidity and reserve count goes up exactly for its own |
| `PilotRoute.EconomicsSamples` | backend/src/arbitrage/execution/StrategyOnePilotEquivalentPaperEvidenceService.ts:517-554 | Times, latest and best net, and the samples of net and of fees |
| `PilotRoute.DispatchFreshIsReserved` | backend/src/arbitrage/execution/StrategyOnePilotEquivalentPaperEvidenceService.ts:790-812 | A dispatch-fresh executed generation is execution grade and within 190 ms on both sides |
| `PilotRoute.ObserveKeepsRoute` | backend/src/arbitrage/execution/StrategyOnePilotEquivalentPaperEvidenceService.ts:388-456 | Every observation keeps: unique = grade + rejected, grade = reserved + reserved-rejected, observed economics = bands = decisions, reserved live-eligible within reserved, ages within 250 and 190 ms, list lengths the capped counts |
| `PilotRoute.EconomicsKeeps` | backend/src/arbitrage/execution/StrategyOnePilotEquivalentPaperEvidenceService.ts:517-554 | Bands and decisions each add up to the observed generations, and the best profit is at least the latest |
| `PilotHistory.RouteReflectsHistory` | backend/src/arbitrage/execution/StrategyOnePilotEquivalentPaperEvidenceService.ts:388-456 | After any run from new a route holds exactly what its history says: keys and ages are the last entries of the full lists, the dispatch-reserved cohort is the filter of the execution-grade one, and nothing seen is lost from the counts |
| `PilotHistory.RouteSpansHistory` | backend/src/arbitrage/execution/StrategyOnePilotEquivalentPaperEvidenceService.ts:388-456 | After any run from new, either cohort of a route spans from the first of its counted generations to the latest, clock steps backwards included |
| `PilotHistory.CountedOnceInWindow` | backend/src/arbitrage/execution/StrategyOnePilotEquivalentPaperEvidenceService.ts:393-407 | In one life of a route two counted observations of one generation are more than the key window apart |
| `PilotHistory.EveryGenerationCounted` | backend/src/arbitrage/execution/StrategyOnePilotEquivalentPaperEvidenceService.ts:393-407 | In one life of a route every observed generation is counted somewhere |
| `PilotBoard.ReachableRoutesReflect` | backend/src/arbitrage/execution/StrategyOnePilotEquivalentPaperEvidenceService.ts:321-515 | In every evidence a fresh service reaches, a route is on the board exactly when it was sighted since it was last given up, and is the run from new of exactly those sightings, with all that follows for its lists and counts |
| `PilotWindow.CountedAgainExactly` | backend/src/arbitrage/execution/StrategyOnePilotEquivalentPaperEvidenceService.ts:393-468 | For one route under sightings and evictions: a generation is counted again exactly when the route was given up since it was last counted or at least a window of other generations was counted since |
| `PilotBoard.BoardCountsAgainExactly` | backend/src/arbitrage/execution/StrategyOnePilotEquivalentPaperEvidenceService.ts:393-515 | The same on the board, for any run of sightings of any routes, with the evictions the board really makes |
| `PilotBoard.BoardMissesNone` | backend/src/arbitrage/execution/StrategyOnePilotEquivalentPaperEvidenceService.ts:393-427 | A generation not counted before on its route is counted |
| `PilotBoard.CountedIsUnique` | backend/src/arbitrage/execution/StrategyOnePilotEquivalentPaperEvidenceService.ts:393-427 | Being counted is what the unique counter counts, and a route made anew starts it from zero |
| `PilotExamples.ServiceCountsAgain` | backend/src/arbitrage/execution/StrategyOnePilotEquivalentPaperEvidenceService.ts:321-427 | At any caps: one more generation of a pilot route than the key window holds, and the first of them again, make the service count one generation too many |
| `PilotExamples.ServiceForgets` | backend/src/arbitrage/execution/StrategyOnePilotEquivalentPaperEvidenceService.ts:321-515 | At any caps: a full board of other pilot routes between two sightings of one generation makes it count twice |
| `PilotEvidence.Oldest` | backend/src/arbitrage/execution/StrategyOnePilotEquivalentPaperEvidenceService.ts:463-468 | The evicted route is the first of those whose last unique generation is longest ago |
| `PilotEvidence.ActCounts` | backend/src/arbitrage/execution/StrategyOnePilotEquivalentPaperEvidenceService.ts:321-387 | A properly dated snapshot counts itself, its opportunities, its pilot ones and those without a route; any other only an invalid observation |
| `PilotEvidence.RouteKeyExactly` | backend/src/arbitrage/execution/StrategyOnePilotEquivalentPaperEvidenceService.ts:836-852 | A route is the letters and digits of its market, one to forty, and its two venues in order |
| `PilotEvidence.MakeRoomKeeps` | backend/src/arbitrage/execution/StrategyOnePilotEquivalentPaperEvidenceService.ts:458-468 | Eviction removes exactly the oldest route of a full board from both maps and leaves every other route as it is |
| `PilotEvidence.WriteKeeps` | backend/src/arbitrage/execution/StrategyOnePilotEquivalentPaperEvidenceService.ts:393-407 | Writing a route back keeps both maps in step and leaves every other route as it is |
| `PilotEvidence.ObserveOnTouches` | backend/src/arbitrage/execution/StrategyOnePilotEquivalentPaperEvidenceService.ts:388-515 | An observation changes its own route, made if need be, and no other but the one given up for it |
| `PilotEvidence.ReachableKept` | backend/src/arbitrage/execution/StrategyOnePilotEquivalentPaperEvidenceService.ts:321-456 | In every state a fresh service reaches, route and set maps have the same keys within the cap, each key set equals its duplicate-free list, every route is balanced, and opportunities = excluded + eligible |
| `PilotSnapshot.SavedIsValidExactly` | backend/src/arbitrage/execution/StrategyOnePilotEquivalentPaperEvidenceService.ts:853-911 | The validator accepts a snapshot the service writes exactly when the sample cap is at most 10,000 or no route has had more samples than that |
| `PilotSnapshot.ValidRouteExactly` | backend/src/arbitrage/execution/StrategyOnePilotEquivalentPaperEvidenceService.ts:853-911 | What the validator asks of a route's times, ages, cohorts, economics and rejection counts |
| `PilotSnapshot.RestoredBoard` | backend/src/arbitrage/execution/StrategyOnePilotEquivalentPaperEvidenceService.ts:691-746 | Restoring files each route under its own key, the last of equal ones, with the set of its generation keys |
| `PilotSnapshot.DefaultSavedIsValid` | backend/src/arbitrage/execution/StrategyOnePilotEquivalentPaperEvidenceService.ts:288-296 | Under the caps the running service is made with, every snapshot it writes is accepted |
| `PilotExamples.RefusedSnapshotExample` | backend/src/arbitrage/execution/StrategyOnePilotEquivalentPaperEvidenceService.ts:853-911 | Under a sample cap over 10,000 and after more generations than that of one pilot route, the service writes a snapshot it refuses to read |
| `PilotSnapshot.RestoreInvertsSave` | backend/src/arbitrage/execution/StrategyOnePilotEquivalentPaperEvidenceService.ts:691-746 | Restoring a saved snapshot gives back counters, routes, their order and the key sets |
| `PilotService.RetainAge` | backend/src/arbitrage/execution/StrategyOnePilotEquivalentPaperEvidenceService.ts:928-932 | Its throwing guard is its precondition, proved at every call, so no counter is left half-updated |
| `PilotService.CountKey` | backend/src/arbitrage/execution/StrategyOnePilotEquivalentPaperEvidenceService.ts:400-405 | The bounded key list and the key set lose the same oldest keys |
| `PilotService.CountRejections` | backend/src/arbitrage/execution/StrategyOnePilotEquivalentPaperEvidenceService.ts:429-434 | Each reason of a rejected generation is counted once |
| `PilotService.DistinctReasons` | backend/src/arbitrage/execution/StrategyOnePilotEquivalentPaperEvidenceService.ts:814-828 | No reason is given twice |
| `PilotService.ObserveProfit` | backend/src/arbitrage/execution/StrategyOnePilotEquivalentPaperEvidenceService.ts:517-554 | The statements give the economics of the model |
| `PilotService.GradeGeneration` | backend/src/arbitrage/execution/StrategyOnePilotEquivalentPaperEvidenceService.ts:429-455 | Grading, cohorts and rejection counts of one new generation |
| `PilotService.EvidenceService.ObserveSnapshot` | backend/src/arbitrage/execution/StrategyOnePilotEquivalentPaperEvidenceService.ts:321-342 | Observing a snapshot does to all counters and routes what the model says |
| `PilotService.EvidenceService.ObservePilotOpportunity` | backend/src/arbitrage/execution/StrategyOnePilotEquivalentPaperEvidenceService.ts:388-456 | Repeats only bump their counter; new generations are counted, graded and written back |
| `PilotService.EvidenceService.EnsureRoute` | backend/src/arbitrage/execution/StrategyOnePilotEquivalentPaperEvidenceService.ts:458-515 | Finds the route or makes it, evicting the oldest one from a full board |
| `PilotService.EvidenceService.RestoreFrom` | backend/src/arbitrage/execution/StrategyOnePilotEquivalentPaperEvidenceService.ts:705-746 | The loop restores the snapshot's evidence |
| `Percentile.PercentileMeaning` | backend/src/arbitrage/execution/StrategyOnePilotEquivalentPaperEvidenceService.ts:938-952 | A nearest-rank percentile is one of the samples, at least its share of them lies at or below it, and less than its share lies at or below anything smaller |
| `Percentile.SortedSorts` | backend/src/arbitrage/execution/StrategyOnePilotEquivalentPaperEvidenceService.ts:938-942 | Sorting orders the samples and keeps how many lie at or below any bound |
| `Headroom.ReviewHeadroom` | backend/src/arbitrage/execution/StrategyOneTimingCalibrationService.ts:129-276 | A review is READY exactly when both reports are mature and undamaged and the limit leaves 10 ms above the worse P99 age |
| `Headroom.ReadyExactly` | backend/src/arbitrage/execution/StrategyOneTimingCalibrationService.ts:129-276 | Everything a READY review has found, one by one |
| `Headroom.LimitInFigures` | backend/src/arbitrage/execution/StrategyOneTimingCalibrationService.ts:205-218 | The budget is the decision P99 and 10 ms in whole milliseconds; the limit is what 250 ms leave of it, at least 25, and none from 250 ms on |
| `Headroom.ReadyMeans` | backend/src/arbitrage/execution/StrategyOneTimingCalibrationService.ts:190-247 | READY gives a limit of 25 to 240 ms with at least 99 in 100 of the retained dispatch-reserved BUY and SELL ages 10 ms or more below it |
| `Headroom.CeilingKeptExactly` | backend/src/arbitrage/execution/StrategyOneTimingCalibrationService.ts:205-218 | Limit plus dispatch budget is at most 250 ms exactly when the budget is at most 225 ms |
| `Headroom.CeilingBroken` | backend/src/arbitrage/execution/StrategyOneTimingCalibrationService.ts:205-218 | A mature review with a decision P99 over 215 and up to 239 ms and no retained age over 15 ms is READY with limit and budget over 250 ms |
| `Headroom.OverCeilingExactly` | backend/src/arbitrage/execution/StrategyOneTimingCalibrationService.ts:190-247 | A mature review is READY and over the ceiling exactly when the budget is over 225 and under 250 ms and both P99 ages are at most 15 ms |
| `Headroom.CeilBounds` | backend/src/arbitrage/execution/StrategyOneTimingCalibrationService.ts:205-210 | Rounding the budget up adds less than one millisecond |
| `Calibration.StatusOnlyAdvances` | backend/src/arbitrage/execution/StrategyOneTimingCalibrationService.ts:413-460 | In the log records of one id only move from PROPOSED to APPROVED to REVOKED, with the evidence and the approval times frozen |
| `Calibration.RevokedForGood` | backend/src/arbitrage/execution/StrategyOneTimingCalibrationService.ts:441-460 | Once revoked, an id is revoked in every later state |
| `Calibration.ReplayedAreSound` | backend/src/arbitrage/execution/StrategyOneTimingCalibrationService.ts:124-126 | Every record rebuilt from a log so written came from a READY review with its limit, and its times fit its status, with a duration of its own of at most 24 hours |
| `Calibration.ReplayKeys` | backend/src/arbitrage/execution/StrategyOneTimingCalibrationService.ts:124-126 | Whatever was stored, the map holds each id once, under itself |
| `Calibration.Newest` | backend/src/arbitrage/execution/StrategyOneTimingCalibrationService.ts:473-482 | Filter, stable sort and first element: the first of the current records approved last |
| `Calibration.CalibrationService.constructor` | backend/src/arbitrage/execution/StrategyOneTimingCalibrationService.ts:103-127 | Replaying any stored log rebuilds the map, whatever durations its records were approved under |
| `Calibration.CalibrationService.Propose` | backend/src/arbitrage/execution/StrategyOneTimingCalibrationService.ts:278-411 | A proposal succeeds exactly for a valid time and a READY review, with a working append unless the evidence was proposed before, which logs nothing |
| `Calibration.CalibrationService.Approve` | backend/src/arbitrage/execution/StrategyOneTimingCalibrationService.ts:413-439 | Approval succeeds exactly for a proposed record and its exact phrase, and ends after the configured duration |
| `Calibration.CalibrationService.Revoke` | backend/src/arbitrage/execution/StrategyOneTimingCalibrationService.ts:441-460 | Revocation succeeds exactly for an approved record |
| `Calibration.CalibrationService.Persist` | backend/src/arbitrage/execution/StrategyOneTimingCalibrationService.ts:522-525 | Log and map change together or not at all, and a log written by such services stays one |
| `Calibration.CalibrationService.GetApprovedRouteCalibration` | backend/src/arbitrage/execution/StrategyOneTimingCalibrationService.ts:462-485 | Refused for an invalid time; none exactly when no unexpired approval of that market and those two venues exists; otherwise the newest one, and on a log written by such services approved no longer ago than its own duration, at most 24 hours, never revoked and from a READY review |
| `PnLList.RunKeeps` | backend/src/arbitrage/metrics/ArbitragePnLService.ts:401-435 | The list is newest first and unique on opportunity and completion time, and holds only logged records |
| `PnLList.RunHoldsLast` | backend/src/arbitrage/metrics/ArbitragePnLService.ts:401-435 | A record is in the unbounded list exactly when it is the last one logged under its key |
| `PnLList.BoundedIsHead` | backend/src/arbitrage/metrics/ArbitragePnLService.ts:401-443 | The bounded list is the first entries of the same run on an unbounded list |
| `PnLList.BoundedKeeps` | backend/src/arbitrage/metrics/ArbitragePnLService.ts:401-443 | So it is sorted, unique and bounded after every run |
| `PnLReload.ShortLogReloads` | backend/src/arbitrage/metrics/ArbitragePnLService.ts:479-566 | A log of at most the cap reloads to the list in memory, repeated keys and equal times included |
| `PnLReload.ReloadsExactly` | backend/src/arbitrage/metrics/ArbitragePnLService.ts:536-555 | A log whose lines at a time tied across the cut are not identical reloads to the list in memory exactly when it fits, or the sorted log is cut between different completion times with no key twice before the cut |
| `PnLReload.CleanTimesReloadExactly` | backend/src/arbitrage/metrics/ArbitragePnLService.ts:536-555 | For every log cut between different completion times: exactly when no key is twice before the cut |
| `PnLReload.FitsOrCutsClean` | backend/src/arbitrage/metrics/ArbitragePnLService.ts:479-566 | In that case it does for every log, identical lines included |
| `PnLReload.RepeatedKeyIsLost` | backend/src/arbitrage/metrics/ArbitragePnLService.ts:536-555 | On every log, a cut between different times behind a repeated key reloads fewer records than memory keeps |
| `PnLReload.TieIsLost` | backend/src/arbitrage/metrics/ArbitragePnLService.ts:536-555 | With a tie across the cut of lines that are not identical, the reloaded list is not the one in memory |
| `PnLReload.RecordedTwiceIsLost` | backend/src/arbitrage/metrics/ArbitragePnLService.ts:536-555 | At any cap of two or more: one result at each of cap times with the newest recorded twice reloads fewer records than memory keeps |
| `PnLReload.TiedAtCutIsLost` | backend/src/arbitrage/metrics/ArbitragePnLService.ts:536-555 | At any cap: of two results at one time before cap - 1 later ones, memory keeps the second and the reloaded list lacks it |
| `PnLService.RestartLosesOldest` | backend/src/arbitrage/metrics/ArbitragePnLService.ts:479-566 | The first of these at the service's cap of 1,000 |
| `PnLService.RestartLosesTied` | backend/src/arbitrage/metrics/ArbitragePnLService.ts:479-566 | The second at the service's cap of 1,000 |
| `PnLReload.DistinctTimesReload` | backend/src/arbitrage/metrics/ArbitragePnLService.ts:479-566 | Pairwise different completion times are enough |
| `PnLReload.SortedRun` | backend/src/arbitrage/metrics/ArbitragePnLService.ts:536-555 | Inserting the sorted log gives the same list as inserting it as written |
| `PnLReload.SortIsStable` | backend/src/arbitrage/metrics/ArbitragePnLService.ts:427-434 | Sorting keeps the log order of equal times |
| `PnLService.WithoutAt` | backend/src/arbitrage/metrics/ArbitragePnLService.ts:405-421 | Finding and splicing the duplicate removes the first record of that key |
| `PnLService.ArbitragePnLService.constructor` | backend/src/arbitrage/metrics/ArbitragePnLService.ts:479-566 | Starting on a stored log gives the reloaded list |
| `PnLService.ArbitragePnLService.InsertRecord` | backend/src/arbitrage/metrics/ArbitragePnLService.ts:401-443 | The statements of an insert give the first 1,000 of the unbounded list with the record put in |
| `PnLService.ArbitragePnLService.Record` | backend/src/arbitrage/metrics/ArbitragePnLService.ts:242-255 | The record is in the list exactly when fewer than 1,000 records there are newer, in the log exactly when persisted, and replaces only the record of its own opportunity and time |
| `PnLService.ArbitragePnLService.FindDuplicate` | backend/src/arbitrage/metrics/ArbitragePnLService.ts:405-412 | The first record of the same key, or none |
| `RejectionStore.IdsDiffer` | backend/src/arbitrage/services/OpportunityRejectionStore.ts:573-577 | Different sequence numbers give different identifiers |
| `RejectionStore.Base36RoundTrip` | backend/src/arbitrage/services/OpportunityRejectionStore.ts:573-577 | The base-36 text of a number determines it and has no dash |
| `RejectionStore.TallyCounts` | backend/src/arbitrage/services/OpportunityRejectionStore.ts:425-472 | A tally gives each name its number of occurrences and the counts add up to the number of records |
| `RejectionStore.Store.RecordRejection` | backend/src/arbitrage/services/OpportunityRejectionStore.ts:266-305 | A blank name or reason is refused and changes nothing; otherwise one record with the given and normalised fields and the next identifier is added to the window |
| `RejectionStore.Store.TrimToCapacity` | backend/src/arbitrage/services/OpportunityRejectionStore.ts:690-718 | Advancing the start, and compacting when it reaches the capacity, leaves the last records up to the capacity |
| `RejectionStore.Store.GetAll` | backend/src/arbitrage/services/OpportunityRejectionStore.ts:335-349 | Exactly the last records since the clear, up to the capacity |
| `RejectionStore.Store.GetRecent` | backend/src/arbitrage/services/OpportunityRejectionStore.ts:307-333 | The reversed suffix of that window |
| `RejectionStore.Store.GetByStage` | backend/src/arbitrage/services/OpportunityRejectionStore.ts:351-386 | The reversed suffix of that window's records of the stage |
| `RejectionStore.OfStageIs` | backend/src/arbitrage/services/OpportunityRejectionStore.ts:351-386 | The stage's records are all of that stage and no others |
| `RejectionStore.Store.GetSummary` | backend/src/arbitrage/services/OpportunityRejectionStore.ts:425-496 | Counts by stage and by code, each adding up to the size of the window |
| `RejectionStore.Store.Clear` | backend/src/arbitrage/services/OpportunityRejectionStore.ts:505-513 | The window is empty; the running number goes on |
| `RejectionStore.Store.IdsNeverRepeat` | backend/src/arbitrage/services/OpportunityRejectionStore.ts:573-577 | No two records ever made share an identifier, clears included |
| `RejectionStore.Store.CostIsBounded` | backend/src/arbitrage/services/OpportunityRejectionStore.ts:690-718 | The backing array stays under twice the capacity, and compaction moves no more elements than were pushed |
| `Fees.FeeRegistry.GetExchangeFeeEvidence` | backend/src/arbitrage/config/fees.ts:91-168 | The evidence in force, or else the static table, and the registry without the expired entry |
| `Fees.StaticRates` | backend/src/arbitrage/config/fees.ts:1-60 | The static rates of each known exchange, CoinDCX by market with tax |
| `Fees.NormalizedExactly` | backend/src/arbitrage/config/fees.ts:389-470 | Evidence is taken in exactly if it is the exchange's own, dynamic, in figures and dated in order, and is kept as given |
| `Fees.FeeRegistry.GetExchangeTakerFeePercent` | backend/src/arbitrage/config/fees.ts:170-241 | The allocation-free lookup gives the evidence lookup's rate and leaves the same registry; rates are not negative |
| `Fees.LookupKeepsView` | backend/src/arbitrage/config/fees.ts:91-241 | A lookup changes nothing in force at its time or later |
| `Fees.LazyEvictionUnobservable` | backend/src/arbitrage/config/fees.ts:91-387 | Over any run with a clock that does not go back, removing expired evidence on lookups changes no answer |
| `Fees.EvictionSeenExactly` | backend/src/arbitrage/config/fees.ts:123-138 | Two lookups show an eviction exactly when the entry had expired at the first time and is in force at the second, which takes a clock that goes back |
| `Fees.FeeRegistry.ReplaceExchangeMarketFeeEvidence` | backend/src/arbitrage/config/fees.ts:243-294 | All or nothing: taken exactly for a named exchange and a list, not empty, of good items, and otherwise the registry stays as it was |
| `Fees.ReplacedHoldsLast` | backend/src/arbitrage/config/fees.ts:259-293 | Afterwards the exchange holds, for each market, the last item given for it and nothing else |
| `Fees.OthersKeptExactly` | backend/src/arbitrage/config/fees.ts:277-293 | Another exchange's entry survives exactly when no new item takes its key |
| `Fees.OthersKept` | backend/src/arbitrage/config/fees.ts:277-293 | With colon-free names no other exchange is touched |
| `Fees.FeeRegistry.ClearDynamicFeeEvidence` | backend/src/arbitrage/config/fees.ts:357-387 | Exactly the entries of the exchange are deleted, or all of them |

## Left out

- Express routes, server start, Socket.IO, React pages, the cache's UI batching, the websocket manager
  and the exchange adapters: plumbing around libraries outside the model.
- Health, readiness, decision, audit and forensics reports, the P&L report totals and the latency samples
  of the scanner: read-only folds with easy claims.
- The economics of one P&L record (rounded products and sums): each follows from one expression.
- Files, JSON text, hashes and UUIDs: logs are sequences of records, identifiers and digests come from
  outside, and the evidence hash of a calibration is represented by the facts it digests.
- IEEE rounding, `toFixed` and the floating-point product inside the percentile rank: prices are reals,
  ages whole milliseconds and pilot percentages whole millionths of a percent. Values that are not finite
  are absent values where the source tests for them.
- Unicode case and space: names are ASCII. Exchange names that are properties of every JavaScript object,
  such as `constructor`, are not distinguished in the static fee table.
- The order of entries inside the cache's JavaScript maps, and the integer-like keys that JavaScript
  objects list first: snapshots keep insertion order.
- Log messages and reason texts: only which reason, or that there is one, is kept. `deepFreeze` and
  `structuredClone` aliasing is not modelled.
- Timers that fire early, and ports that throw where the source has no `try` around them: last look,
  reserve, commit, release and P&L recording are taken not to throw.
- Time to live of the wallet reservation, order polling options and client order identifiers.
- Fields missing from older pilot snapshots, for which restoring substitutes defaults.
- `getByCode` of the rejection store, which is `getByStage` on another field, and the sorted order in which
  fee evidence is listed.
- Coordinator.ArbitrageExecutionCoordinator.Attempt: the ports answer once per execution from a fixed
  `Ports` value, since the source asks each of them at most once.
- OpportunityEngine.Engine.Evaluate: freshness, fees, capabilities, conversion and analysis are asked at one
  fixed moment, and the store keeps every record; the bounded window over it is `RejectionStore`.
- PilotService.EvidenceService.ObservePilotOpportunity: a route is a value written back to the map at the
  end, so aliasing of the mutable route object is not captured.
- OpportunityEngine.Engine.ResolveReferenceCapital: the key of a cached capital holds the amount itself
  rather than its text to eight places.
- OpportunityEngine.Engine.Scan: which markets of the controlled venue are eligible is an input.
- PnLReload.ReloadsExactly: where identical lines are tied across the cut only the sufficient half is
  stated (`FitsOrCutsClean`), since one of two such lines may be cut without a trace.
- PairScan.GroupByMarket: snapshots under construction are values written back to the local map.
- Calibration.CalibrationService.Propose: the public and the pilot report are taken to name the same route,
  and the evidence hash to be computed from route key, facts and time.
