# Verified model of the trading platform

A Dafny 4.11 model of the parts of the platform whose correctness lies in small state machines, a
ledger, crash and concurrency protocols, and numeric recurrences, with proofs of what those parts
promise. `dafny verify dfyconfig.toml` checks the whole project.

## How it is organised

| file | what it models |
|---|---|
| `Prelude.dfy` | shared types, `Min`, `Max`, `Abs`, powers, rounding halves to even |
| `FeedOwnership.dfy` | who may close the feed adapter, and the retry budget (`ReconnectingFeed`) |
| `Netting.dfy` | how one fill moves one position row |
| `Ledger.dfy` | the execution tables and the transaction that moves them together (`ExecutionRepository`) |
| `Correlation.dfy` | building and parsing correlation IDs |
| `OrderLifecycle.dfy` | `handle_signal` among any number of crashing workers |
| `Book.dfy` | the gateway and the position manager, against the ledger |
| `DailyGuard.dfy` | the day-level halt latch and what a restart does to it |
| `Engine.dfy` | the trading engine's pending entry, latches, position and square-off |
| `TokenMinting.dfy` | token minting among any number of processes |
| `CandleAggregation.dfy` | the hub's candle aggregator |
| `CandleBuilding.dfy` | the engine's candle builder, and when the two agree |
| `DropQueue.dfy` | the bounded drop-oldest queue with drop notices |
| `Quotes.dfy`, `TickPrices.dfy`, `PaperBroker.dfy` | the quote book, adverse tick rounding, the simulated broker |
| `Exits.dfy` | exit engines, their composite, snapshot and restore |
| `Averages.dfy`, `SuperTrend.dfy`, `Adx.dfy`, `Crossover.dfy` | exponentially weighted sums, and the indicators |

Concurrent protocols are state machines: every lock region, shared-flag access, transaction, file
replacement or broker call is one step, a run is any sequence of enabled steps of any threads, and the
theorems speak of every run. Objects are classes whose methods are proved equal to a function of the
state; the theorems are about that function over whole histories, and where possible against a
description of the history that does not mention the machine. What an operation cannot decide by
itself (clocks, the network, the broker's answer, a strategy's signal, the session, which legs fill)
is one of its inputs and unconstrained.

Prices and P&L are `real`, quantities and times `int`. Candle times are whole seconds: every decision
there floors the timestamp first. India is 19,800 seconds ahead of UTC.

## What the proofs found

Where the code and its own documentation differ, the model follows the code.

* **Closing exactly once.** `_close_owned_adapter` says it closes the adapter exactly once. Each start
  does close it exactly once (`FeedOwnership.StartLeavesTheAdapterClosed`), but a `start()` taken while
  another thread is still inside `adapter.stop()` can close it at the same time; a start finding nobody
  there cannot, and that is the exact condition (`FeedOwnership.StartIsExclusiveExactly`,
  `FeedOwnership.LateStartClosesConcurrently`).
* **Crossing fills.** A fill larger than the position it opposes leaves the old average price on the
  flipped row. The row then claims the wrong cash, by exactly the flipped quantity times the price
  difference (`Netting.RowClaimsItsCash`, `Netting.CrossingLosesCash`).
* **A crash costs the signal**, both between saving it and reserving its intent and between reserving the
  intent and calling the broker: nothing submits it again (`OrderLifecycle.CrashLosesTheOrder`). When a
  signal can still be submitted is `OrderLifecycle.SubmittableExactly`.
* **Counting round trips.** `closed_position_count` promises the round trips a day has closed. It counts
  them exactly if and only if no fill of the day landed on a flat row or reversed one, and otherwise too
  few (`Ledger.ClosedCountExactly`).
* **Charges of a re-entered contract.** A row accumulates the charges of all its round trips, and
  recovery adopts with the row's charges. The resulting trade is charged for the earlier trips again, by
  exactly what they cost (`Ledger.RowChargesAreTheTripsExactly`, `Book.AdoptedTradeIsChargedExactly`).
* **Restarts and the daily halt.** Recovery reads the gross total and the closed rows, while the guard is
  fed net P&L and round trips. When that goes unnoticed is `DailyGuard.RestartIsUnnoticedExactly`. It can
  lose a live-mark halt, a loss halt or a trade-limit halt, invent a profit halt, or halt later than the
  day would have (`DailyGuard.LiveHaltIsForgotten`, `DailyGuard.GrossLosesALossHalt`,
  `DailyGuard.RowsLoseATradeHalt`, `DailyGuard.GrossInventsAProfitHalt`, `DailyGuard.GrossHaltsLate`). A profit target of zero or less halts
  any day restarted before its first trade, even from the true totals (`DailyGuard.EmptyRestartHalts`).
* **A failed halt exit.** The guard promises to square off anything still open when it halts the day. It
  asks only at the tick that trips the limit and never again (`Engine.GuardNeverAsksAgain`). If that leg
  does not fill, the error ends the feed and `run()` squares off once more, and again if a shutdown was
  requested. A day ends halted with a position open if and only if all of those legs go unfilled
  (`Engine.ExposedExactly`, `Engine.TripThenForcedExactly`), or the position was adopted under a restored
  halt and nothing else closed it (`Engine.DayIsExposedExactly`, `Engine.AdoptedUnderAHaltExactly`).
* **The entry block** is consulted when an entry is queued, not when it fills, so the entry already
  pending may still open (`Engine.OnlyThePendingEntryOpensAfterBlock`).
* **Two candle clocks.** The aggregator floors in India's time, the builder in the tick's own zone, UTC
  on live ticks. They agree exactly for intervals that divide 19,800 seconds, which an hour does not
  (`CandleBuilding.SameBarsExactly`), and within one day also for those too long to close a bar
  (`CandleBuilding.SameBarsWithinADayExactly`).
* **Flushing.** After a flush, a tick for a published interval reopens it, and that is the only way to the
  duplicate error (`CandleAggregation.ErrorStaysOutOfReachExactly`,
  `CandleAggregation.ReopenedBarNeverCloses`).
* **Drop notices.** "At least one gets through" holds for a stalled worker at every depth, but for a
  worker that keeps taking only up to depth three, and at no depth when the queue's pipe may lag, since
  then the notice itself can be refused (`DropQueue.NoticeGetsThroughExactly`, `DropQueue.LaggingRunLoses`).
* **Latency quotes.** The oldest quote at the deadline is the oldest *retained* one; it is the market's
  first only if none that met the deadline was evicted (`Quotes.AfterIsOldestEver`).
* **SuperTrend's bands** contain the previous close exactly when the next candle's middle is within the
  multiplied average of it; the line's ratchet needs only that the bands stay in order
  (`SuperTrend.BandsContainExactly`, `SuperTrend.OrderedBandsRatchet`).
* **Restarts and candle exits.** Gap suppression of the combined exit does not survive a restart
  (`Exits.CombinedRestartExactly`), and neither does the previous candle. Losing the latter changes at most
  the first decision, and exactly when a momentum engine would have won it
  (`Exits.RestartWithoutHistoryExactly`); it also hides the lost suppression
  (`Exits.CombinedRestartWithoutHistoryExactly`).

## Model

| member | source | states |
|---|---|---|
| FeedOwnership.RunKeepsInv | common/feed/reconnect.py:294-484 | the inductive invariant of every interleaving: what each thread's position says about `_stopped`, the event, the owner and `_closed` |
| FeedOwnership.OnlyOwnerStopsARunningAdapter | common/feed/reconnect.py:388-454 | while one thread is inside `adapter.start()` no other thread is ever inside `adapter.stop()` |
| FeedOwnership.AtMostOneTickAfterStop | common/feed/reconnect.py:456-484 | at most one tick step comes after a step that set the stop event |
| FeedOwnership.AtMostOneEntryAfterStop | common/feed/reconnect.py:326-340 | the adapter is entered at most once after a stop was asked for |
| FeedOwnership.StartLeavesTheAdapterClosed | common/feed/reconnect.py:294-324 | when `start()` gives up ownership the adapter has been closed exactly once since that start and is silent; closes never exceed starts plus one |
| FeedOwnership.QuietRunStopsAlone | common/feed/reconnect.py:443-454 | in every run whose starts each find nobody inside `adapter.stop()`, at most one thread is ever inside it, closing or reconnecting |
| FeedOwnership.StartIsExclusiveExactly | common/feed/reconnect.py:294-324 | at each start: the threads go on stopping the adapter one at a time, whatever follows, if and only if nobody is inside `adapter.stop()` when it is taken |
| FeedOwnership.LateStartClosesConcurrently | common/feed/reconnect.py:443-454 | such a start exists: a run in which two threads are inside `adapter.stop()` at once |
| FeedOwnership.BudgetBoundsOneOutage | common/feed/reconnect.py:326-386 | the failures counted are exactly the exceptions out of `adapter.start()` since the last tick that were handled with no stop asked for, a clean return never; the budget is exhausted exactly at `max_attempts` of them, and the loop never goes on with that many |
| FeedOwnership.RaisedExactly | common/feed/reconnect.py:326-341 | a thread handles a failure next if and only if the handler or the adapter has just raised |
| FeedOwnership.ReconnectsExactly | common/feed/reconnect.py:326-371 | after a failure that does not end the loop a thread backs off, then stops the adapter; an exception may leave either, and nothing else |
| FeedOwnership.LoopEndsExactly | common/feed/reconnect.py:326-386 | inside `start()` the loop has ended if and only if, since it was entered, the adapter returned, the backoff or reconnect raised, a stop was seen, or the budget was spent |
| FeedOwnership.CleanReturnEnds | common/feed/reconnect.py:373-386 | after the adapter returned, the thread does not enter it again before its next `start()` |
| FeedOwnership.RequestStopNeverCloses | common/feed/reconnect.py:422-432 | a thread closing the adapter outside the loop's own ends called `stop()`, not `request_stop()` |
| FeedOwnership.RecoveryRuns | common/feed/reconnect.py:326-386 | a run from start to end: a failing handler, a reconnect, the end of the tape, one close |
| FeedOwnership.Policy.DelayFor | common/feed/reconnect.py:112-122 | a delay is never negative, never above the cap, and jitter only shortens it, by at most its ratio |
| FeedOwnership.BackoffGrows | common/feed/reconnect.py:112-122 | before jitter, a later attempt never waits less |
| FeedOwnership.DelayExactly | common/feed/reconnect.py:112-122 | the delay is the smaller of the exponential in the attempt and the cap, less the drawn part of its jitter |
| Netting.RowClaimsItsCash | common/execution/repository.py:494-606 | for every fill history: quantity is the sum of fills, and the row claims their cash up to the drift of crossing fills |
| Netting.CleanFillExactly | common/execution/repository.py:553-569 | one fill keeps the cash identity if and only if it does not cross, or crosses at the average price |
| Netting.CashThroughoutExactly | common/execution/repository.py:494-606 | a row claims its cash after every fill if and only if every fill was clean |
| Netting.RealisedIsNetCash | common/execution/repository.py:494-606 | without crossing fills, re-entries included, realised P&L is quantity times average less cost; a closed row's is its net cash |
| Netting.CrossingLosesCash | common/execution/repository.py:557-560 | the smallest crossing history, and the row it leaves |
| Netting.ClosedRowsCountRoundTripsExactly | common/execution/repository.py:685-708 | for every fill history of a contract, closed rows never exceed round trips, and equal them if and only if no fill landed on its flat row or reversed it |
| Netting.ReenteredContractIsOneRow | common/execution/repository.py:685-708 | two round trips that are one closed row |
| Netting.ReversedContractIsOneRow | common/execution/repository.py:553-569 | so are two that passed through flat in one fill |
| Ledger.HistoryIsConsistent | common/execution/repository.py:347-664 | at every committed state: daily P&L is the sum of that day's rows, order totals are their fills' sum and weighted mean, rows are unique and open exactly when not flat |
| Ledger.FillKeepsConsistent | common/execution/repository.py:347-458 | one `apply_fill` keeps all four tables in agreement |
| Ledger.TablesRecordTheEvents | common/execution/repository.py:347-458 | for every history: the fills table is the fresh fills in order; an order is as submitted but for the status given with its last fresh fill and, once it has one, their quantity and weighted mean; a day's candle is the last one given |
| Ledger.ReplayChangesNothing | common/execution/repository.py:369-384 | replaying a fill at any later point changes nothing, and its position row is there to return |
| Ledger.RowIsItsFills | common/execution/repository.py:494-606 | whatever else is interleaved, a row is what its own fills make of it |
| Ledger.RowIsNetCash | common/execution/repository.py:494-606 | in the tables, a flat row's realised P&L is its contract's net cash |
| Ledger.RowCarriesItsCharges | common/execution/repository.py:494-606 | charges add up over a contract's fills; stop and target are the last given |
| Ledger.RowChargesAreTheTripsExactly | common/execution/repository.py:571-590 | a row's charges are those of the open round trip if and only if the earlier trips' sum to zero |
| Ledger.EarlierChargesExactly | common/execution/repository.py:571-590 | with a charge on every fill, they do if and only if no fill reached a flat row or reversed one |
| Ledger.ReenteredRowOvercharges | common/execution/repository.py:571-590 | bought, sold and bought again at a charge of 1 each: the row carries 3 for a trip charged 1 |
| Ledger.ClosedCountExactly | common/execution/repository.py:685-708 | for every history of the tables, a day's closed rows never exceed its round trips, and equal them if and only if no fill of the day landed on a flat row or reversed one |
| Ledger.ExecutionRepository.ClosedPositionCount | common/execution/repository.py:685-708 | how many distinct contracts of the day have a closed row |
| Ledger.RealisedAfterFill | common/execution/repository.py:608-664 | the day's sum of realised P&L moves by the fill's own row and no other |
| Ledger.ExecutionRepository.RecordSubmission | common/execution/repository.py:299-344 | inserts the order and touches nothing else |
| Ledger.ExecutionRepository.ApplyFill | common/execution/repository.py:347-458 | the tables afterwards, what is returned, and exactly when it raises |
| Ledger.ExecutionRepository.UpsertPosition | common/execution/repository.py:494-606 | the rows afterwards and this fill's own contribution to realised P&L |
| Correlation.ParseInvertsBuild | common/execution/correlation.py:95-158 | parsing a built ID gives back mode, tokens, date and sequence |
| Correlation.ParsesExactly | common/execution/correlation.py:46-50 | parsing accepts exactly the documented format, but for one final newline, and reads its fields |
| Correlation.BuildsExactly | common/execution/correlation.py:86-134 | building succeeds or is refused, and for which reason, by the sign of the number, the date, the names and the length |
| Correlation.DatesExactly | common/execution/correlation.py:105-118 | a compact date is accepted if and only if the year has that month and the month that day; with `Correlation.MonthsAddUp` and `Correlation.LeapYearsExactly` for the calendar |
| Correlation.DashedDate | common/execution/correlation.py:100-104 | both spellings of a date give the compact one |
| Correlation.SameIdExactly | common/execution/correlation.py:95-134 | two builds give one ID if and only if mode, tokens, date and sequence agree |
| Correlation.FitsExactly | common/execution/correlation.py:95-134 | the ID fits 25 characters exactly when its tokens leave room for its sequence; every sequence up to 99,999 fits |
| Correlation.TokenExactly | common/execution/correlation.py:66-71 | a strategy token fails only when nothing alphanumeric remains, and is otherwise the cleaned value cut to its limit |
| Correlation.InitialsExactly | common/execution/correlation.py:137-144 | a runtime token fails only when nothing alphanumeric remains; one word is cut to the limit, several give the characters that start them |
| OrderLifecycle.Run | common/execution/lifecycle.py:87-208 | every reachable state of any workers, crashes and redeliveries satisfies the protocol's invariant |
| OrderLifecycle.SubmissionWasReserved | common/execution/lifecycle.py:141-147 | every broker call finds its intent, under its correlation ID, already committed |
| OrderLifecycle.OneSubmissionPerSignal | common/execution/repository.py:169-273 | no two broker calls share a correlation ID, an intent or a signal key |
| OrderLifecycle.IntentsCountUp | common/execution/repository.py:278-296 | in every run, workers racing for numbers included, a strategy-day's intents are numbered 1, 2, 3 and so on in the order they were reserved, and the number read is the one after the last in use |
| OrderLifecycle.OrdersComeFromSubmissions | common/execution/lifecycle.py:147-195 | every order row records a broker call and is the only one of its intent; the books are consistent |
| OrderLifecycle.SubmittableExactly | common/execution/lifecycle.py:87-160 | from every reachable state, with one worker a strategy: a signal can still be submitted if and only if some worker holds it with its intent saved, or before that with an ID it can still reserve |
| OrderLifecycle.CrashLosesTheOrder | common/execution/lifecycle.py:96-147 | when the worker holding a signal crashes, before or after reserving its intent, the order is never submitted, whatever follows |
| OrderLifecycle.UnheldIsNeverSubmitted | common/execution/lifecycle.py:96-112 | a signal nobody holds is never submitted, however often its candle returns |
| Book.HandledIsTheProtocol | common/execution/lifecycle.py:87-208 | one undisturbed `handle_signal` is a run of the crash-safe protocol from idle to idle |
| Book.LegIsReservedExactly | common/engine/gateway.py:150-198 | the broker is called for a leg if and only if its key is new and an intent can be reserved under the day's next number; what is recorded either way |
| Book.LegIsRecorded | common/execution/lifecycle.py:147-195 | a filled leg leaves its order with the answer's status, its fills with their prices and charges, and its row with the charges on top and the stop and target where given |
| Book.OrderIsRecorded | common/execution/lifecycle.py:147-177 | a leg refused or not filled leaves its order as answered and nothing else |
| Book.OpenInStepExactly | common/engine/positions.py:197-262 | after an open, raised or not, book and ledger agree if and only if the broker filled all or nothing at its mean price |
| Book.CloseInStepExactly | common/engine/positions.py:330-397 | the same for a close, with the trade's gross P&L equal to what the ledger realised |
| Book.BookAgreesWithLedger | common/engine/positions.py:162-397 | over every run: held contracts are backed by their rows, others are flat unless left by an earlier process, gross P&L explains the daily P&L, and mae <= gross <= mfe |
| Book.EveryRunRemembers | common/engine/positions.py:162-397 | over every run of a fresh manager: it holds what was opened or adopted and not closed since, at its own entry and charges, last price and extremes over all its marks |
| Book.TradeIsItsLife | common/engine/positions.py:330-397 | closing books one trade with the position's entry, both legs' charges, gross P&L, and extremes up to the exit |
| Book.ExecutionsAreLegs | common/engine/gateway.py:195-198 | the gateway's count of executions is the number of legs that were filled |
| Book.AdoptedTradeIsChargedExactly | common/engine/positions.py:286-288 | a position adopted at its row's charges and closed is charged for its own round trip if and only if the earlier trips on the row cost nothing, and its net P&L is short by exactly their cost |
| Book.OnlyEarlierSignalsCollide | common/engine/gateway.py:265-289 | no leg is suppressed as a duplicate of another leg of the same process, whatever the timestamps |
| Book.OpenPosition.UpdatePrice | common/engine/models.py:141-158 | price and both excursions afterwards |
| Book.LifecycleGateway.HandleSignal | common/execution/lifecycle.py:87-208 | the database afterwards and exactly when the call skips or raises |
| Book.LifecycleGateway.ApplyFills | common/execution/lifecycle.py:178-194 | the loop over fills, stopping at one the schema refuses |
| Book.LifecycleGateway.Execute | common/engine/gateway.py:150-198 | the database and windows afterwards; an outcome only for a filled order |
| Book.PositionManager.Open | common/engine/positions.py:197-262 | the whole state afterwards; a raise leaves the book as it was |
| Book.PositionManager.Adopt | common/engine/positions.py:264-328 | the book gains the position, the gateway and database are untouched |
| Book.PositionManager.Close | common/engine/positions.py:330-397 | the whole state afterwards; a raise leaves position and trades as they were |
| DailyGuard.HaltedExactly | common/engine/daily_guard.py:140-197 | the guard is halted if and only if the kill switch is set or some moment crossed a limit on the day's true totals |
| DailyGuard.RestartIsUnnoticedExactly | runtimes/intraday_options/engine_worker.py:345-379 | a restart from any recovered gross total and row count goes unnoticed, whatever follows, if and only if the kill switch is set, or a halted day's totals are past a limit, or a running day's are not and are the true ones on every limit that can still decide something |
| DailyGuard.GrossRestoreInventsExactly | common/engine/daily_guard.py:118-138 | for any target, a restart from the gross total halts a running day if and only if the charges carry it to that target, which it is short of once it has traded |
| DailyGuard.EmptyRestartHalts | common/engine/daily_guard.py:118-138 | a target of zero lets a day wait for its first trade, but halts it if it restarts before |
| DailyGuard.LastTradeHidesTheTotal | common/engine/daily_guard.py:173-192 | before the day's last trade a wrong total can go unnoticed by a profit target |
| DailyGuard.LiveHaltIsForgotten | common/engine/daily_guard.py:152-171 | a concrete day whose live-mark halt a restart forgets |
| DailyGuard.GrossLosesALossHalt | runtimes/intraday_options/engine_worker.py:345-379 | a net loss halt that the gross total loses |
| DailyGuard.GrossInventsAProfitHalt | runtimes/intraday_options/engine_worker.py:345-379 | a profit halt that only the gross total reaches |
| DailyGuard.RowsLoseATradeHalt | runtimes/intraday_options/engine_worker.py:345-379 | a trade limit that the count of closed rows loses |
| DailyGuard.GrossHaltsLate | runtimes/intraday_options/engine_worker.py:345-379 | two running guards that the same next trade tells apart |
| DailyGuard.DailyRiskGuard.RegisterTrade | common/engine/daily_guard.py:140-150 | the guard afterwards; a reason exactly when this call latched it |
| DailyGuard.DailyRiskGuard.CheckOpenMtm | common/engine/daily_guard.py:152-171 | the guard afterwards; a reason exactly when this call latched it |
| DailyGuard.DailyRiskGuard.Restore | common/engine/daily_guard.py:118-138 | the guard afterwards; a reason exactly when this call latched it |
| Engine.StartKeepsInv | common/engine/engine.py:573-725 | a fresh day, with or without recovered risk and position, satisfies the engine's invariant |
| Engine.DayStarts | common/engine/engine.py:573-725 | how a day starts: nothing pending, blocked exactly when recovery that mattered failed, holding and tracking exactly the recovered position, the guard at the recovered totals |
| Engine.DayKeepsInv | common/engine/engine.py:886-1303 | over every day: at most one position, pending means flat and not halted, premium candles track exactly the open contract, and squared off means empty with the feed ended |
| Engine.OpensExactly | common/engine/engine.py:1055-1063 | a position opens if and only if the running feed brings a routed tick of the pending contract inside the window and it is filled; it is the pending one |
| Engine.PositionClosesExactly | common/engine/engine.py:1025-1153 | the open position is closed if and only if a square-off, a risk, tick, guard or premium exit, or a candle signal asks for it and the gateway fills the leg; otherwise it keeps its entry |
| Engine.RaisesExactly | common/engine/engine.py:886-908 | a tick's error leaves the handler if and only if a leg it tries, to close what asks for it or to fill the pending entry, is not filled |
| Engine.PhasesExactly | common/engine/engine.py:344-398 | where `run()` stands after each event, and exactly what sets the request, the entry block and the square-off |
| Engine.ExposedExactly | common/engine/engine.py:344-398 | over every run not starting so: it is halted with a position open if and only if some tick tripped a limit without its leg and every forced square-off since found its leg unfilled too; the feed has ended by then |
| Engine.TripThenForcedExactly | common/engine/engine.py:383-398 | after such a tick the run ends exposed if and only if the forced leg, and the requested one if any, are unfilled |
| Engine.DayIsExposedExactly | common/engine/engine.py:344-398 | over every day from its start: exposed if and only if so, or a position adopted under a halt was closed by nothing since |
| Engine.GuardFollowsTheBookExactly | common/engine/engine.py:1223-1257 | over every day with limits: until it halts, the guard's totals are the recovered ones plus the book's trades; and it is halted if and only if it started so, a closing trade took those totals past a limit, or a mark of the open position did |
| Engine.PendingExactly | common/engine/engine.py:1066-1192 | an entry is queued if and only if a closed candle signals one within the window on a free day, for the selected contract and the signal's side; it goes exactly when its own tick fills it or finds the window closed |
| Engine.GuardNeverAsksAgain | common/engine/daily_guard.py:152-171 | over every run from a halted day with a position open, the position stays exactly until something other than the guard closes it |
| Engine.AdoptedUnderAHaltExactly | common/engine/engine.py:573-725 | a restart starts its day halted and holding if and only if it adopts a position under a kill switch or totals past a limit |
| Engine.NothingOpensAfterHalt | common/engine/engine.py:1159-1170 | once halted, nothing opens for the rest of any day |
| Engine.OnlyThePendingEntryOpensAfterBlock | common/engine/engine.py:558-571 | once blocked, at most one position opens, and only the entry already pending |
| Engine.SquareOffCompletesExactly | common/engine/engine.py:1284-1303 | a square-off completes if and only if there is nothing to close or its leg fills, and completed means the book is empty |
| Engine.SquaredOffStaysFlat | common/engine/engine.py:1284-1303 | over every run from a completed square-off the book stays empty, the feed ended, and nothing opens, whatever is pending |
| Engine.NothingOpensOnceTheFeedEnds | common/engine/engine.py:382-398 | over every run from a feed that has ended, however it ended, nothing opens |
| Engine.TradingEngine.constructor | common/engine/engine.py:573-725 | the state at the start of a day |
| Engine.TradingEngine.RunDay | common/engine/engine.py:344-398 | the whole run: the feed's items until it ends or one raises, then the forced and the requested square-off |
| Engine.TradingEngine.Force | common/engine/engine.py:383-387 | after a raise, one square-off; otherwise nothing |
| Engine.TradingEngine.Finish | common/engine/engine.py:388-398 | the requested square-off, if any |
| Engine.TradingEngine.OnTickAt | common/engine/engine.py:886-908 | the whole state after a tick, exactly when it raises, and the invariant |
| Engine.TradingEngine.OnOptionTickAt | common/engine/engine.py:1025-1063 | the whole state after an option tick, raised or not |
| Engine.TradingEngine.OnUnderlyingTickAt | common/engine/engine.py:910-934 | the whole state after an underlying tick |
| Engine.TradingEngine.OnCandleCloseAt | common/engine/engine.py:1066-1153 | the whole state after a closed candle, raised or not |
| Engine.TradingEngine.EnterOn | common/engine/engine.py:1159-1192 | the pending entry afterwards |
| Engine.TradingEngine.OpenPending | common/engine/engine.py:1194-1221 | the whole state afterwards; a raise leaves the entry pending |
| Engine.TradingEngine.CloseAt | common/engine/engine.py:1223-1257 | the whole state afterwards; a raise changes nothing |
| Engine.TradingEngine.HandleSquareOff | common/engine/engine.py:1284-1303 | the whole state afterwards and exactly when it raises; otherwise the book is empty and the feed stopped |
| Engine.TradingEngine.BlockEntries | common/engine/engine.py:558-571 | latches and changes nothing else |
| TokenMinting.Run | common/authentication/bootstrap.py:217-316 | every reachable state of any number of processes, with crashes, satisfies the protocol's invariants |
| TokenMinting.OneRequestAtATime | common/authentication/token_cache.py:211-235 | at most one process has a login request open |
| TokenMinting.CooldownIsRespected | common/authentication/token_cache.py:283-310 | after a recorded rejection nobody sends a request before the cooldown is over, unless it is forced away |
| TokenMinting.WrongPinCostsOneRequest | common/authentication/bootstrap.py:217-299 | while logins are only rejected, any two requests are a cooldown apart, however many processes start |
| TokenMinting.OneLoginPerDeadToken | common/authentication/bootstrap.py:166-190 | refreshes naming one dead token log in at most once while the minted tokens stay usable |
| TokenMinting.RefreshNeverReturnsTheDeadToken | common/authentication/bootstrap.py:204-211 | a refresh never returns the token it names, unless a login issued it anew |
| TokenMinting.ReturnsExactly | common/authentication/bootstrap.py:217-316 | in every run, a call releasing its lock returns the token its own login minted, then cached with no rejection on file; or else the cached token it found usable and not dead, without a request; or else its login failed for good and it returns nothing |
| TokenMinting.CallGoesOnExactly | common/authentication/bootstrap.py:217-299 | a call lasts until it is blocked at the first look, times out, releases or crashes, and goes on asking exactly while nothing was served, minted or failed |
| TokenMinting.RecordsExactly | common/authentication/bootstrap.py:262-275 | a process records a rejection if and only if its login was just rejected |
| TokenMinting.FilesAreTheSteps | common/authentication/bootstrap.py:301-316 | the cache, the rejection on file and the record are what the steps of all the processes say |
| CandleAggregation.CompletesExactly | common/candles/aggregator.py:123-155 | in any tick order a bar completes exactly when a tick passes every earlier one; it is the OHLC of exactly the latest bucket's ticks, published unless a gap hit it, never a duplicate |
| CandleAggregation.OutputsIncrease | common/candles/aggregator.py:217-230 | an instrument's published bars start strictly later and later |
| CandleAggregation.RejectionsAreCounted | common/candles/aggregator.py:130-150 | both rejection counters equal what the history says |
| CandleAggregation.EveryTickIsInOneBar | common/candles/aggregator.py:123-184 | every accepted tick is in exactly one published, discarded or open bar |
| CandleAggregation.ErrorStaysOutOfReachExactly | common/candles/aggregator.py:186-230 | over every run of ticks, gaps and flushes, the duplicate error never comes within reach if and only if no tick reopens a published interval |
| CandleAggregation.ReopenedBarNeverCloses | common/candles/aggregator.py:217-230 | once reopened, every tick beyond the bar raises and changes nothing |
| CandleAggregation.ClosesOnceExactly | common/candles/aggregator.py:186-230 | over every run with flushes: a closing bar is published, discarded for a gap, or refused for an interval closed before; the published set and the discard count are those of the bars closed |
| CandleAggregation.FloorExactly | common/candles/aggregator.py:35-46 | the floor of an instant is the one start, on its own day, of a whole interval after midnight that contains it |
| CandleAggregation.ContainsExactly | common/candles/aggregator.py:49-63 | a session contains an instant if and only if its local time of day is from the start up to, not including, the end |
| CandleAggregation.AbsorbIsOhlc | common/candles/aggregator.py:86-92 | absorbing a tick keeps the bar the OHLC of its ticks |
| CandleAggregation.CandleAggregator.AddTick | common/candles/aggregator.py:123-155 | the whole state afterwards and the answer |
| CandleAggregation.CandleAggregator.MarkFeedGap | common/candles/aggregator.py:157-184 | exactly the named open bars are marked, and how many |
| CandleAggregation.CandleAggregator.Flush | common/candles/aggregator.py:186-200 | the whole state afterwards and the answer, for one instrument |
| CandleAggregation.CandleAggregator.Complete | common/candles/aggregator.py:217-230 | publishes, discards or refuses, and records the interval |
| CandleBuilding.ClosesExactly | common/candles/builder.py:114-162 | in any order a candle closes exactly when a tick passes every earlier bucket, and is marked exactly when a whole interval is missing |
| CandleBuilding.SameBucketExactly | common/candles/aggregator.py:35-46 | in session the two zones give one bucket if and only if the interval divides their offset |
| CandleBuilding.AgreeOnStreamExactly | common/candles/builder.py:114-162 | on one stream hub and builder answer every tick alike if and only if the interval is aligned or no bar ever closes |
| CandleBuilding.SameBarsExactly | common/candles/builder.py:114-162 | they agree on every in-session stream if and only if the interval divides 19,800 seconds |
| CandleBuilding.SameBarsWithinADayExactly | common/candles/builder.py:110-162 | on every stream of one day they agree if and only if the interval divides 19,800 seconds or is too long for any bar to close |
| CandleBuilding.CandleBuilder.Add | common/candles/builder.py:114-162 | the open bar afterwards, the candle closed, and when it raises |
| CandleBuilding.CandleBuilder.Flush | common/candles/builder.py:164-167 | hands over the open bar and keeps none |
| DropQueue.EveryRunIsSound | common/feed/queues.py:143-172 | at every depth and in every interleaving, lag included: bounded length, every item taken, held or counted as dropped, held items are the freshest, and unreported drops stay within the cadence |
| DropQueue.CadenceExactly | common/feed/queues.py:79-95 | the cadence is the largest number up to eight within half the depth, one at least |
| DropQueue.StalledWorkerKeepsANotice | common/feed/hub.py:354-391 | with a stalled worker and no lag a notice is in the queue after every tick from the first overflow on |
| DropQueue.NoticeGetsThroughExactly | common/feed/queues.py:79-95 | in every interleaving some notice is held or was taken after an overflow if and only if the depth is at most three and the pipe never lags |
| DropQueue.LosingRunLoses | common/feed/queues.py:43-65 | at any greater depth, a run that loses the only notice |
| DropQueue.LaggingRunLoses | common/feed/queues.py:149-162 | at any depth, a run whose notice the lagging queue refuses |
| DropQueue.BoundedWorkerQueue.Publish | common/feed/queues.py:143-165 | the queue afterwards under any racing takes and lag, the second refusal included, and the answer |
| DropQueue.BoundedWorkerQueue.DropOne | common/feed/queues.py:167-172 | drops the oldest item and counts it, unless there is nothing to get |
| DropQueue.Channel.NotifyDrop | common/feed/hub.py:383-391 | sends a notice on the first drop and then once a cadence |
| DropQueue.Channel.Deliver | common/feed/hub.py:354-381 | the channel after one tick, under any racing takes |
| Quotes.RetainsTheLatest | common/broker/quotes.py:80-87 | the book retains exactly the last `depth` quotes of each instrument |
| Quotes.AfterIsOldestEver | common/broker/quotes.py:94-113 | the latency quote is the oldest ever at or after the deadline, unless one that met it was evicted |
| Quotes.QuoteBook.Record | common/broker/quotes.py:80-87 | the book afterwards |
| Quotes.QuoteBook.Latest | common/broker/quotes.py:89-92 | the newest retained quote, if any |
| Quotes.QuoteBook.After | common/broker/quotes.py:94-113 | the oldest retained quote at or after the deadline |
| TickPrices.WholeTicksAreAdverse | common/broker/paper.py:786-798 | the grid price is at most a billionth of a tick better than asked and less than a tick worse |
| TickPrices.GridPriceStays | common/broker/paper.py:786-798 | a price on the grid stays where it is |
| TickPrices.FillIsAdverse | common/broker/paper.py:658-690 | with ticks that are multiples of 0.0001, neither later rounding weakens those bounds |
| TickPrices.FillIsNearlyAdverse | common/broker/paper.py:658-690 | with any other tick they weaken by less than 0.000051 |
| PaperBroker.EveryRunIsSound | common/broker/paper.py:362-477 | in every run: fills are positive and never exceed the order, totals and status follow from them, exactly the unfilled orders rest, and limit fills are at the limit from a quote at or through it on the side it trades against, after the latency |
| PaperBroker.QuoteFillsExactly | common/broker/paper.py:419-477 | a quote fills exactly the resting orders of its instrument past their latency whose limit it met, as split and at their limits; none of them remains and no other changes |
| PaperBroker.RefusalExactly | common/broker/paper.py:484-640 | a submission is refused if and only if it breaks some rule, and for the first one it breaks |
| PaperBroker.RefusalChangesNothing | common/broker/paper.py:484-527 | a refused or faulting submission leaves orders, working book and fill numbers unchanged |
| PaperBroker.AcceptanceAddsOne | common/broker/paper.py:370-416 | an accepted one adds one order under a new ID, resting or filled |
| PaperBroker.OrdersAreFinal | common/broker/paper.py:419-440 | each ID has one order for good, and a filled order never changes |
| PaperBroker.MarketFillsAreAdverse | common/broker/paper.py:642-783 | a market fill is one of the policy's parts under the next number, comes off the submission quote or the oldest that met the deadline, and is adverse to that quote's opposite side slipped, within the stated bounds |
| PaperBroker.MarketAnswerExactly | common/broker/paper.py:370-388 | a market order that breaks no rule is refused without depth or fallback, or without a positive price; faults on a wrong split; and is accepted otherwise |
| PaperBroker.CountersAreExact | common/broker/paper.py:637-640 | over every run the refusal and latency counters say what happened, but for slippage in ticks nobody knows |
| PaperBroker.TicklessFillIsNear | common/broker/paper.py:658-690 | without a tick a fill is within 0.00005 of the slipped price |
| PaperBroker.MarketAnswerIsWholeExactly | common/broker/paper.py:697-783 | a market order's answer meets the position book's assumption if and only if the split adds up to the quantity |
| PaperBroker.PaperBroker.Submit | common/broker/paper.py:362-368 | the whole state afterwards and the result |
| PaperBroker.PaperBroker.FillNow | common/broker/paper.py:370-388 | the whole state afterwards and the result, for a market order |
| PaperBroker.PaperBroker.SelectQuote | common/broker/paper.py:642-656 | the quote to price against and whether it met the deadline |
| PaperBroker.PaperBroker.OnQuote | common/broker/paper.py:419-440 | the whole state after offering a quote, also when the split policy faults |
| PaperBroker.PaperBroker.Settle | common/broker/paper.py:442-477 | the resting order leaves the working book with its fills at its limit |
| Exits.RestartIsInvisible | common/exit/composite.py:85-144 | wherever a restart falls, every later candle gets the same decision and first-fired engine |
| Exits.RestartWithoutHistoryExactly | common/exit/momentum_close.py:38-81 | with the candle history lost too, no decision after the first changes, and the first changes if and only if a momentum engine would have won it |
| Exits.RestoreIsExact | common/exit/base.py:97-117 | a fresh engine restored from a snapshot is the engine that took it |
| Exits.SnapshotExactly | common/exit/base.py:97-105 | there is a snapshot exactly while there is something to remember, and it is the memory |
| Exits.RestoresExactly | common/exit/base.py:107-117 | missing or foreign data is ignored |
| Exits.MemorylessFiresExactly | common/exit/stoploss_exit.py:37-51 | the stop, the target, both momentum engines, the trend and the clock fire exactly on what each promises of the position, the candles and the indicator |
| Exits.TrailingFiresExactly | common/exit/trailing_exit.py:50-69 | the profit trail fires if and only if some gain of the position's life above zero has been given back by its points |
| Exits.PointsTrailFiresExactly | common/exit/highest_close.py:93-131 | the trail in points fires if and only if the last close gave back that much of the best |
| Exits.CompositeIsDistinct | common/exit/composite.py:147-169 | a built composite has exactly the selected engines, at most one a label, in their order of priority |
| Exits.ExtremeIsBest | common/exit/highest_close.py:93-131 | the extreme is the best close of the position's life, and the gate is open exactly when that close passed it |
| Exits.HighestCloseFiresExactly | common/exit/highest_close.py:93-131 | the trail fires if and only if the best close passed the gate and the last gave back enough |
| Exits.ConsecutiveFiresExactly | common/exit/consecutive_reversal.py:53-69 | it fires if and only if the last so many closes each moved against the position |
| Exits.CombinedRestartExactly | common/exit/combined_candle_exit.py:97-130 | a restart is invisible to the combined exit, whatever follows, if and only if no gap suppression is pending |
| Exits.CombinedRestartWithoutHistoryExactly | common/exit/combined_candle_exit.py:97-117 | with the candle history lost too, it is invisible if and only if the first candle was suppressed anyway or did not break the one before it |
| Exits.SuppressedExactly | common/exit/combined_candle_exit.py:83-95 | a suppression is pending exactly between a gap and the next candle |
| Exits.KeepsTheExtremeCloses | common/exit/combined_candle_exit.py:190-194 | the two closes it keeps are the highest and lowest of the position's candles, whatever gaps came |
| Exits.ExitEngine.ShouldExit | common/exit/base.py:119-133 | the decision and the memory afterwards |
| Exits.CompositeExit.ShouldExit | common/exit/composite.py:117-144 | every engine advances; the first that fires wins |
| Exits.CompositeExit.Snapshots | common/exit/composite.py:85-94 | every non-empty snapshot under its label |
| Exits.CompositeExit.Restore | common/exit/composite.py:96-115 | every engine whose label is present is restored |
| Exits.CombinedCandleExit.ShouldExit | common/exit/combined_candle_exit.py:177-222 | which legs fire, and the state afterwards |
| SuperTrend.Batch | common/indicators/supertrend.py:70-138 | on every series the batch form's trend and line are the stateful form's |
| SuperTrend.WilderAtr | common/indicators/supertrend.py:52-67 | the averages of the series, in a pass of their own |
| SuperTrend.SameAtr | common/indicators/supertrend.py:210-216 | batch and running averages agree at every candle |
| SuperTrend.AtrIsWeighted | common/indicators/supertrend.py:52-67 | on every series the average is the exponentially weighted sum of all the true ranges |
| SuperTrend.ContainsExactly | common/indicators/supertrend.py:218-267 | after any fed state, for any period and multiplier, the final bands contain the previous close if and only if the candle's middle is within the multiplied average of it |
| SuperTrend.BandsContainExactly | common/indicators/supertrend.py:218-267 | so on every series, at every candle from the second on |
| SuperTrend.RatchetsExactly | common/indicators/supertrend.py:218-267 | the line moves against an unchanged trend if and only if the close had already left it and the new basic band lies behind |
| SuperTrend.OrderedBandsRatchet | common/indicators/supertrend.py:218-267 | on every series whose bands stay in order, the line moves only with the trend until it flips |
| SuperTrend.TurnsExactly | common/indicators/supertrend.py:218-267 | the trend turns if and only if the close is beyond the final band that was its line |
| SuperTrend.TrendIsLastLeft | common/indicators/supertrend.py:218-267 | on every series whose bands stay in order, the trend is the side of the last close that left them |
| SuperTrend.PeriodOneContainsAndRatchets | common/indicators/supertrend.py:218-267 | both hold for period one and any multiplier from one up, on well-formed candles |
| SuperTrend.NarrowBandsLoseTheClose | common/indicators/supertrend.py:218-267 | a series on which narrower bands lose the close |
| SuperTrend.SuperTrend.Update | common/indicators/supertrend.py:218-267 | the state afterwards and whether the trend flipped |
| Adx.EveryReadingIsBounded | common/indicators/adx.py:96-128 | on well-formed candles both indicators, their sum and the index are percentages |
| Adx.FiguresAreWeighted | common/indicators/adx.py:88-128 | on every stream the smoothed range and moves are weighted sums of the true ranges and directional moves, the indicators their percentages, and the index the weighted sum of the indicators' relative differences |
| Adx.CloseAboveHighEscapes | common/indicators/adx.py:96-128 | a close outside its candle breaks that |
| Adx.ADX.Update | common/indicators/adx.py:96-128 | the state and reading afterwards, and the bounds they keep |
| Crossover.EmitsExactly | common/indicators/ema.py:100-135 | a side is emitted if and only if the last so many spreads after the first are all beyond the separation on it and the confirmed side is another |
| Crossover.EmissionsAlternate | common/indicators/ema.py:100-135 | successive emissions alternate, and the last is the confirmed side |
| Crossover.ConfirmedCrossover.Update | common/indicators/ema.py:100-135 | the gate afterwards and the answer |
| Crossover.AverageStaysInRange | common/indicators/ema.py:59-63 | the average stays within the range of its closes |
| Crossover.AverageIsWeighted | common/indicators/ema.py:59-63 | the average is the exponentially weighted sum of every close |
| Crossover.EMA.Update | common/indicators/ema.py:59-63 | the average and the count afterwards |

## Left out

- FeedOwnership: token refresh, resubscription, health figures and staleness; `adapter.request_stop()` promises nothing about when it takes effect, so no theorem rests on it.
- FeedOwnership: one `start()` at a time and sequentially consistent memory are assumed, as in the class's own documentation.
- Ledger: audit, error, heartbeat and session tables, and the recorded quote of a fill; each transaction is one atomic step and the database itself never fails.
- Ledger.ExecutionRepository.RecordSubmission: models the insert; the update of an order already recorded for the intent is not modelled, because no run of the lifecycle reaches it (`OrderLifecycle.OrdersComeFromSubmissions`).
- OrderLifecycle.SubmittableExactly: assumes one worker for each strategy and mode, as the feed hub enforces (common/feed/hub.py:149-152); `OrderLifecycle.UnheldIsNeverSubmitted` and `OrderLifecycle.CrashLosesTheOrder` do not.
- Book: the reference price and time of a signal's synthetic candle do not influence anything proved and are dropped; the payload record for restart recovery and the merged charge breakdown are not modelled.
- Book: the strategy-day's rows are taken to be moved by this desk alone; `close_all` and `InMemoryGateway` would add only easy members.
- Engine: the book is the position manager's value (`Book.Shelf`), for any gateway; strategy, risk-manager and notifier hooks are inputs that do not raise.
- Engine: regime tags, heartbeats, persistence of exit state and marks, subscriptions, and the premium gap log do not affect the properties; warm-up can only block entries, which is an event.
- Engine: errors of `run()` before the feed starts, in `_start_day` or the warm-up, end it with no position opened and are not modelled, nor is the square-off record that another process reads.
- Engine.StartKeepsInv: a day starts in a process that holds nothing yet; a second run of one engine object with an open book is not modelled.
- TokenMinting: a login is a nondeterministic outcome; I/O failures of the cache and the rotation of credentials are not modelled, and a login is taken never to issue the dead token again.
- CandleAggregation.CandleAggregator.Flush: one instrument at a time; flushing all is the same call for each.
- CandleBuilding: the hub's integer volume is compared with the builder's rounded one; instruments other than the stream's own are not mixed in.
- DropQueue: one channel and one producer, whose lag may strike any publish that found the queue full; candle fan-out, dynamic subscriptions and queue statistics would add only easy members, and a second producer does not exist.
- PaperBroker: charges and timestamps of fills; instrument rules are positive by type, and quotes with a negative touch fall outside the price bounds.
- Exits: snapshots are typed values, so foreign or malformed data cannot occur; prices are positive, since a zero entry or extreme divides by zero in the source.
- Indicators: arithmetic over reals; floating-point rounding is not modelled.
- Correlation: identifiers and dates are ASCII.
