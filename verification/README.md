# Verified model of the trading pipeline

A Dafny model of the stateful core of an index-options trading pipeline: the scalper with
its risk gate, trade log and restart repair; the average-cost position book behind the
order engine; candle aggregation with crash recovery; the write-ahead log; the signal gate;
option symbols and expiry calendar; tick dedup; the alert machine; and the replay engine.

Each component has a specification made of functions on values. Where the program updates
objects in place, a class with the same fields is proved, method by method and loop by
loop, to compute exactly those functions. The guarantees are lemmas about the functions:
over every run, every log, every tick stream or every interleaving, not about single calls.

Prices, fees and profits are exact reals; Python's `round(x, k)` is half-to-even on the
decimal grid. Timestamps, market data, regime bias, open-interest walls and entry
candidates are arbitrary inputs of each step, so the results hold for all of them.

## How the files fit together

| files | component |
|---|---|
| Common, Rounding, PaperExecution | shared vocabulary, the two roundings, the paper executor |
| PositionBook, OrderFlow | average-cost book and the order engine in front of it |
| ExitRules, TradeLog, Scalper | exit rules and levels, the append-only log and its readers, the scalper's handlers |
| LogOrder | the order in which unmatched entries are listed |
| ScalperSafety, ScalperRuns, ScalperLedger, ScalperDecisions, ScalperLoss, ScalperThreads | invariants, run-level guarantees, booked profit and crashes, what each action does, worst-case loss, two threads interleaved |
| Candles, CandleNesting, CandleEngine, CandleRuns | aggregator, roll-up and exactly when it holds, live engine with its store, what the candle table ends up holding |
| Wal | write-ahead log with crashes, and its reader |
| SignalGate | cooldown, sliding-window limiter, counting |
| Calendar, OptionSymbols | month calendar search, symbol patterns, printing and parsing |
| Dedup, Alerts, Replay | LRU dedup, fire and resolve machine, source merging and replay |

## Where the code and its documentation differ

The model follows the code; the lemma named states the difference exactly.

- A halt is described as lasting the session. An index's state starts with an empty reset
  date, so the first index tick after its creation clears a halt earned that same day. A
  halt survives a reset if and only if the index was already reset on that date
  (`HaltSurvivesReset`); from then on it holds all day (`HaltHolds`); `HaltLostSameDay` is
  a run that loses one.
- The exit path has a branch for a rejected sale. It is unreachable: a sale at a positive
  price fills, or the order or fill record fails to validate and the handler raises
  (`ExitNeverRejected`). It fills if and only if the quantity is positive, the slipped price
  is worth at least one tick and the fee does not round below zero (`SaleFillsIff`); an
  overdue position is closed exactly then and otherwise stays open (`OverdueIsClosedIff`).
  Lots configured as zero or less are such a case: the entry buys one unit but records no
  quantity (`NoLotsOpens`), and nothing short of a restart ever closes the position
  (`NoLotsNeverClosed`). Raised from the timer, this also ends the timer thread, which is
  why a pass can stop early (`ManageLoopPass`).
- The stop distance is documented as the tighter of two bounds; the code takes the wider
  one. Because of that the rupee cap always answers before the price stop, as long as
  slippage is not negative (`DollarStopDominates`, `PriceStopNeverFires`). In general the
  price stop can answer for a position if and only if the stop is positive and the cap is
  not yet reached at the stop (`StopAnswersIff`); in terms of the opening, if and only if
  the fill lies below the stop plus the per-unit cap, which takes a fill below the quote
  (`StopAnswersAtOpening`, `OpenedStopAnswersIff`). A run in which no such position is
  opened never sees it answer (`StopNeedsReach`). `StopAnswersUnderNegativeSlippage` is one
  such position.
- Trading at one price is expected never to make money. That holds if and only if no order
  at that price can fill better than it (`NoFreeProfitIff`), which the two snapped prices
  settle (`NoFreeProfit`). Slippage that is not negative is always enough
  (`UsualSlippage`), slightly negative slippage can be (`TinyNegativeSlippage`), and one
  that reaches the next tick is not (`FavourableSlippageProfits`).
- The loss bound of a trade survives sales that raise, unless fee rate and slippage are
  both negative (`WorstCaseLoss`); then a raised sale can break it
  (`RaisedSaleBreaksBound`).
- The 5m and 15m candles are expected to be roll-ups of finer ones. They are if and only if
  no tick is late for the finer timeframe alone (`RollUpIff`, with
  `BackwardsTickBreaksRollUp` as a failing instance).
- A tick that falls back into a bucket a sweep has closed starts that bucket's bar over, and
  the row loses the earlier ticks (`ReopenedRowLosesTicks`). When none does, the table is
  the batch result (`TableIsBatch`).
- Records of a log killed between its sync and its counter write get their numbers handed
  out again: a whole batch, not a batch less one (`CrashCost`, `NumberReissued`).
- EXIT reads as "flatten". The code trades the signal's own resolved quantity, so the book
  ends flat if and only if that equals the held quantity, and flips if and only if it is
  larger (`ExitEffect`, with `ExitFlips` as an instance).
- A subscription symbol does not always parse back to its expiry: the monthly form names
  only the month and is read as its last Tuesday. The round trip holds if and only if the
  expiry is not the last of its weekday in its month, or is a Tuesday
  (`SubscribedRoundTrip`, with `ThursdayExpiryMisread` as an instance).
- Unmatched entries are documented as listed oldest first. They come in the order in which
  their keys became open, and an entry written over an open one keeps the older place:
  entries A, B, A list as A, B (`RepeatListedFirst`). The list is oldest first if and only
  if no open key was entered again after the last entry of another open key that was
  inserted behind it (`OldestFirstIff`). The scalper never writes an entry under an open
  key, so its own logs always list oldest first (`RunListsOldestFirst`).
- With signal times running backwards the limiter's evicted queue and the admitted history
  can disagree, in both directions (`OutOfOrderForgets`, `OutOfOrderOvercounts`). They agree
  on both counts exactly when no evicted time is back inside the hour and as many evicted
  times are back inside the day as queued ones lie outside it (`LimiterExactIff`, a
  restatement of that agreement). A signal no earlier than those before it is never admitted against
  the history (`NeverTooLenient`), and while admitted times are in order none is refused
  against it (`NeverTooStrict`); with times in order both hold (`RateLimitRefines`).

## Assumptions behind the run-level results

- Scalper: each handler is one atomic step, except in `ScalperThreads`, where the two
  threads interleave inside a close. `CrashInsideAction` covers a crash in the middle of an
  action. The cooldown result needs positive, non-decreasing clock readings at losing
  closes, since 0 means "no loss yet".
- Candles: a key is listed once. Ticks may come in any order. The table result excludes
  ticks that reopen a bucket after a sweep or restart has closed it; clocks no further
  ahead than the ticks' own buckets exclude that (`TimelyNeverReopens`).
- Write-ahead log: dates do not run backwards; a crash, between calls or inside one, loses
  whole trailing records that were not yet synced. The bound on reissued numbers is a batch
  less one while no crash hits a record in flight, else a batch.
- Alerts: a positive clock that does not run backwards; a scan may return a key more than once.

## Model

| member | source | states |
|---|---|---|
| Rounding.FloorTick | src/trading/orders/paper.py:25 | the result is a whole number of ticks, at most one tick below the price and never above it |
| Rounding.CeilTick | src/trading/orders/paper.py:24 | the result is a whole number of ticks, less than one tick above the price and never below it |
| Rounding.TicksAreCents | src/trading/orders/paper.py:23-25 | every whole number of ticks is already on the two-decimal grid, so the final rounding changes nothing |
| Rounding.HalfEvenTies | src/trading/orders/book.py:113-114 | a value halfway between two grid points goes to the even one |
| Rounding.RoundIsGrid | src/trading/orders/book.py:113-114 | rounded values lie on the decimal grid, values on the grid stay, and rounding keeps order |
| PaperExecution.SnapFill | src/trading/orders/paper.py:15-25 | a fill price lies on the tick grid and is snapped against the trader by less than one tick |
| PaperExecution.FillBracket | src/trading/orders/paper.py:42-79 | a filled order keeps its quantity, is not HOLD, has a positive on-grid price within one tick of the slipped price on the losing side, and non-negative fees |
| PaperExecution.BuyFillsIff | src/trading/orders/paper.py:42-79 | a buy fills if and only if price and quantity are positive, the slipped price is positive and the fee does not round below zero; it fills at the next tick up from the slipped price |
| PaperExecution.RejectedIff | src/trading/orders/paper.py:43-48 | of the orders that validate, exactly HOLD and those at price zero are rejected |
| PaperExecution.SlippageIs | src/trading/orders/paper.py:50-60 | both sides are moved against the trader by the configured basis points of the price |
| PaperExecution.FillCharged | src/trading/orders/paper.py:64-77 | the fee is the flat fee plus the rate on the gross value, to half its fourth decimal |
| PaperExecution.FillNeverBeatsReference | src/trading/orders/paper.py:50-65 | with non-negative slippage no buy fills below and no sale above the reference price |
| PositionBook.Conservation | src/trading/orders/book.py:84-116 | after any fills, quantity is the signed sum, and realized profit equals net cash plus inventory at average cost within 5e-7 per unit held plus 5e-5 for each fill |
| PositionBook.ConservationExact | src/trading/orders/book.py:84-116 | without rounding the conservation law is an equality, from any starting position, through adds, partial closes and flips |
| PositionBook.SplitFill | src/trading/orders/book.py:84-109 | two fills at one price leave the same book as the combined fill, even when one of them crosses zero |
| PositionBook.AverageCostRules | src/trading/orders/book.py:86-109 | adding realizes only the fees and averages between the two prices, reducing keeps the average, crossing zero restarts at the fill price, closing resets it |
| PositionBook.StoredOnGrid | src/trading/orders/book.py:111-116 | the stored average has six decimals and the stored profit four, each the nearest to the exact value |
| PositionBook.BookSeparates | src/trading/orders/book.py:77-117 | each instrument's record is what its own fills alone would have produced |
| PositionBook.SessionDrift | src/trading/orders/book.py:113-118 | the session total differs from the sum of the per-instrument profits by at most 5e-5 per fill |
| PositionBook.Book.ApplyFill | src/trading/orders/book.py:75-122 | the call posts exactly this fill to the book, leaves every other instrument alone, and mirrors record and total to the store |
| PositionBook.Book.Hydrate | src/trading/orders/book.py:37-58 | a new book on the mirrored store holds exactly the positions and session total of the old one |
| OrderFlow.OrderEngine.OnSignal | src/trading/orders/engine.py:92-140 | HOLD, EXIT without a position, an order that does not build and a rejected order leave the book untouched; otherwise exactly one fill is posted, of the quantity asked for, and the holding rises on BUY, falls on SELL and moves towards or past zero on EXIT |
| OrderFlow.DirectionLaw | src/trading/orders/engine.py:80-109 | a booked BUY raises the holding, a booked SELL lowers it and a booked EXIT moves it against its sign, each by the metadata quantity when that is positive and else by the default |
| OrderFlow.SignalFillsIff | src/trading/orders/engine.py:92-130 | a signal is booked if and only if it is no HOLD, no EXIT of nothing, has a positive reference price and its order clears |
| OrderFlow.HoldingAddsUp | src/trading/orders/engine.py:92-140 | after any signals the holding is the booked BUY quantities less the booked SELL quantities plus the moves of the booked EXITs |
| OrderFlow.ExitEffect | src/trading/orders/engine.py:99-109 | a filled EXIT ends flat if and only if the resolved quantity is the held one and flips the position if and only if it is larger |
| OrderFlow.ExitFlips | src/trading/orders/engine.py:99-109 | an EXIT naming two units against one held leaves the book one short |
| OrderFlow.NoFreeProfit | src/trading/orders/engine.py:92-140 | for any signals at one reference price at which neither side snaps to a better one, marked profit is at most minus the fees, exactly and up to the rounding slack in the stored book; ending flat realizes at most minus the fees |
| OrderFlow.NoFreeProfitIff | src/trading/orders/paper.py:42-79 | no run of signals at that price makes money if and only if no single order at it can fill better than it |
| OrderFlow.UsualSlippage | src/trading/orders/paper.py:50-65 | slippage that is not negative meets the condition at every price |
| OrderFlow.TinyNegativeSlippage | src/trading/orders/paper.py:50-65 | at minus one basis point both sides still fill at 100.00 |
| OrderFlow.FavourableSlippageProfits | src/trading/orders/paper.py:50-65 | at minus ten percent one buy at 100.00 is marked at a profit |
| ExitRules.DollarStopDominates | src/trading/critical/exit.py:64-84 | for a position opened from a quote and filled at or above it, any positive price at or below the stop already meets the rupee cap, so the answer is never "stop" |
| ExitRules.StopAnswersIff | src/trading/critical/exit.py:64-84 | for any position at all, the price stop answers at some positive price if and only if the stop is positive and the rupee cap is not reached at the stop |
| ExitRules.StopAnswersAtOpening | src/trading/critical/exit.py:156-173 | with levels from the quote, the price stop can answer if and only if the stop is positive and the snapped fill lies below the stop plus the per-unit cap; then the fill is below the quote |
| ScalperLoss.OpenedStopAnswersIff | src/trading/critical/engine.py:337-350 | the same for every position the engine opens, for any slippage setting |
| ExitRules.StopAnswersUnderNegativeSlippage | src/trading/critical/exit.py:79-84 | an instance: a position bought at negative slippage for which the price stop answers |
| ExitRules.HeldIff | src/trading/critical/exit.py:43-132 | a quote is held at if and only if the loss is below the cap, the price strictly between stop and target, the time stop ahead, and no soft exit due: not aged and losing with the bias against it or a wall new since entry broken by the hysteresis |
| ExitRules.TargetAnswersIff | src/trading/critical/exit.py:86-91 | the answer is "target" if and only if the price is at or above it with no cap, stop or time stop due |
| ExitRules.ReasonsIff | src/trading/critical/exit.py:64-132 | exactly when each of the other five reasons is given, in their order of precedence |
| ExitRules.LevelsBracketFill | src/trading/critical/exit.py:156-173 | stop below quote and quote at most the fill, with stop, fill and target on the grid; the fill is at most the target if and only if the slipped quote is, which slippage within 1.5 stop distances guarantees and slippage a tick beyond that rules out |
| ExitRules.LevelDistances | src/trading/critical/exit.py:135-173 | the stop gives up the wider of five points and the per-unit cap (or sits at zero), the target asks for 1.5 times that, each by less than a tick more, and the time stop is the configured seconds away |
| TradeLog.OpenMapIsUnmatched | src/trading/critical/reconcile.py:45-58 | the pairing dictionary holds exactly the entries with no later entry or exit under their key |
| TradeLog.OpenItemsList | src/trading/critical/reconcile.py:47-58 | the insertion-ordered listing is a duplicate-free listing of that dictionary, overwrites included |
| TradeLog.PairEntries | src/trading/critical/reconcile.py:45-58 | the loop returns exactly the unmatched entries, in dictionary order |
| LogOrder.ListedByInsertion | src/trading/critical/reconcile.py:47-58 | for any log the listing is in the order in which the keys last became open |
| LogOrder.OldestFirstIff | src/trading/critical/reconcile.py:45-58 | the listing is in log order if and only if no open key was re-entered after the last entry of another open key inserted behind it |
| LogOrder.RepeatListedFirst | src/trading/critical/reconcile.py:51-54 | entries A, B, A list the newest entry first |
| LogOrder.FreshIsOldestFirst | src/trading/critical/reconcile.py:45-58 | a log with nothing open at some point and no entry under an open key after it lists oldest first |
| LogOrder.RunListsOldestFirst | src/trading/critical/engine.py:211-350 | whatever log it was started on, a scalper's log lists its unmatched entries oldest first in every reachable state |
| TradeLog.ReconcileClosesAll | src/trading/critical/reconcile.py:82-107 | for any log at all, pairing it again after its own synthetic exits leaves nothing open |
| TradeLog.SyntheticMeans | src/trading/critical/reconcile.py:86-102 | the exit written for an orphan has its key and price, no profit, the repair's time, and the time held since the entry or 0 when that is unknown |
| TradeLog.OrderlyReconcile | src/trading/critical/reconcile.py:60-107 | repair keeps entries and exits alternating for each index, with at most one open key each |
| TradeLog.Journal.ReconcileOrphans | src/trading/critical/reconcile.py:60-107 | appends exactly one zero-profit exit per orphan, in order, and leaves the log with nothing open |
| TradeLog.ClosedRowPairs | src/trading/ui/rest.py:107-129 | an exit row carries exactly the entry that was unmatched when the exit was written, or none |
| TradeLog.SettledRowsAre | src/trading/ui/rest.py:98-129 | the settled rows are the log's rejections and exits, one row each, in log order |
| TradeLog.OpenRowsAreUnmatched | src/trading/ui/rest.py:96-133 | the trade table shows as open exactly the entries that the startup repair would close |
| TradeLog.CriticalTrades | src/trading/ui/rest.py:96-133 | the table loop yields the settled rows in log order followed by the open ones |
| Scalper.CriticalEngine.constructor | src/trading/critical/__main__.py:24-38 | a process starts with empty memory on the repaired log |
| Scalper.CriticalEngine.ResetIfNewDay | src/trading/critical/state.py:103-134 | clears counters and halts of exactly the indices not yet reset on that date |
| Scalper.CriticalEngine.ClosePosition | src/trading/critical/engine.py:392-424 | one sale, one logged exit and the loss, cooldown and halt bookkeeping; a sale that raises changes nothing |
| Scalper.CriticalEngine.TryExit | src/trading/critical/engine.py:356-390 | no usable quote or no exit reason leaves the position; otherwise it is closed; raises exactly when the sale does |
| Scalper.CriticalEngine.EnterIfAllowed | src/trading/critical/engine.py:211-350 | opens only behind the gate, with levels from the quote and entry price from the fill, logging the entry or the rejection |
| Scalper.CriticalEngine.OnIndexTick | src/trading/critical/engine.py:149-159 | day reset, then state creation, then exit check, in that order |
| Scalper.CriticalEngine.OnOptionTick | src/trading/critical/engine.py:161-179 | exit check first, entry only when nothing is held afterwards |
| Scalper.CriticalEngine.ManageLoopPass | src/trading/critical/engine.py:428-435 | every index in turn is checked if overdue; the pass stops early exactly after an exit that raises |
| ScalperSafety.GateMeans | src/trading/critical/risk.py:51-82 | an entry is allowed if and only if the time is inside the window and there is room under the cap, no open position, no halt, fewer losses than the breaker and no running cooldown |
| ScalperDecisions.WindowIff | src/trading/critical/risk.py:32-48 | the entry window is open exactly from 09:15 plus to 15:30 minus the configured minutes, Indian time, both ends included; minutes that leave their hour raise |
| ScalperDecisions.EntryMeans | src/trading/critical/engine.py:211-350 | with lots, a candidate and the gate open, a buy of the configured lots at the quote decides: filled, it opens and logs exactly the position the candidate describes; rejected, it is logged; otherwise nothing happens |
| ScalperDecisions.NoCandidateNoEntry | src/trading/critical/engine.py:332-333 | without a candidate nothing happens |
| ScalperDecisions.LookClosesIff | src/trading/critical/engine.py:356-402 | a usable look closes the position, with one exit in the log at its fill and profit, if and only if the quote is not one to hold at and the quantity can be sold; nothing else changes |
| ScalperDecisions.TargetIsClosedIff | src/trading/critical/exit.py:86-91 | at or above the target a usable look closes the position if and only if its quantity can be sold |
| ScalperDecisions.NotLookedAt | src/trading/critical/engine.py:375-376 | without a position, without a usable quote, or on the timer before the time stop, nothing happens |
| ScalperDecisions.PnlIsBookProfit | src/trading/critical/engine.py:401-402 | the profit of a close is what the average-cost book realizes on selling the whole position |
| ScalperDecisions.IndexTickOrder | src/trading/critical/engine.py:149-159 | an index tick resets the day, may then look and close, and never enters |
| ScalperDecisions.OptionTickOrder | src/trading/critical/engine.py:161-179 | an option tick looks and closes before it enters, so an entry is not looked at in its own tick |
| ScalperSafety.ExitNeverRejected | src/trading/critical/executor.py:139-170 | a sale at a positive price fills or raises, so the rejected branch of a close is unreachable |
| ScalperSafety.BootEstablishes | src/trading/critical/__main__.py:24-38 | starting on any log whatsoever establishes the invariant |
| ScalperSafety.RunPreserves | src/trading/critical/engine.py:149-435 | every run of ticks, timer checks, resets, entries and restarts keeps: memory is what history says, log and memory agree, caps hold, the log is orderly |
| ScalperRuns.LogMatchesMemory | src/trading/critical/engine.py:344-424 | in every reachable state the unmatched entries of the log are exactly the open positions with their prices and levels, and entries and exits alternate per index |
| ScalperRuns.RiskStateIsSafe | src/trading/critical/risk.py:67-82 | in every reachable state at most max_concurrent positions are open, an open index is not halted and below the breaker, and reaching a breaker of at least one means halted; with a breaker below one nothing is ever open |
| ScalperRuns.OneBigLossPerSession | src/trading/critical/engine.py:403-424 | between two clears of its counters an index has at most one big loss, and no entry after it |
| ScalperRuns.CooldownRespected | src/trading/critical/risk.py:75-81 | no entry on an index sooner than the cooldown after any earlier losing close of the same session |
| ScalperRuns.EntriesInsideHours | src/trading/critical/risk.py:32-48 | in every run each entry passed its gate between 09:15 plus and 15:30 minus the configured minutes, Indian time |
| ScalperRuns.HaltSurvivesReset | src/trading/critical/state.py:103-112 | a reset keeps a halt if and only if the index was already reset on that date |
| ScalperRuns.HaltHolds | src/trading/critical/state.py:103-112 | once reset on a date, a halted index stays halted through everything that happens that day short of a restart |
| ScalperRuns.HaltLostSameDay | src/trading/critical/engine.py:149-179 | a concrete run in which a big-loss halt is lost on the day it was earned |
| ScalperLedger.LogBooksEveryClose | src/trading/critical/executor.py:139-170 | over any run and any restarts the log books the profits of exactly the closes the risk state saw, in order, on top of what it held before; repair books nothing |
| ScalperLedger.CrashInsideAction | src/trading/critical/reconcile.py:60-107 | a crash in the middle of an action, or of a repair, is repaired to an orderly log with nothing open and no profit but that of the action's two edges |
| PaperExecution.SaleFillsIff | src/trading/orders/paper.py:42-79 | of all sale orders, exactly those with positive price, positive quantity, a slipped price of at least one tick and a fee that does not round below zero fill; exactly those at price zero are rejected; all others raise |
| PaperExecution.UsualSaleClears | src/trading/orders/paper.py:50-76 | with fee settings that are not negative, only the quantity and the slipped price decide |
| PaperExecution.NegativeFeeRateInverts | src/trading/orders/paper.py:61-76 | with a negative fee rate a sale can raise at a high price and fill at a low one |
| ScalperLedger.OverdueIsClosedIff | src/trading/critical/engine.py:428-435 | in any state the timer closes an overdue quoted position, with one exit in the log, if and only if its quantity can be sold at that price; otherwise it raises and log and memory stay as they were |
| ScalperLedger.NoLotsNeverClosed | src/trading/critical/executor.py:139-163 | a position holding no positive quantity stays open through every run without a restart |
| ScalperLedger.NoLotsOpens | src/trading/critical/executor.py:91-120 | with lots configured as zero the entry buys one unit and opens such a position |
| ScalperLoss.StopNeedsReach | src/trading/critical/exit.py:64-84 | in any run no evaluation answers "stop" unless a position was opened for which it can |
| ScalperLoss.PriceStopNeverFires | src/trading/critical/exit.py:64-84 | with non-negative slippage no such position is ever opened and no evaluation in any run answers "stop" |
| ScalperLoss.WorstCaseLoss | src/trading/critical/engine.py:378-402 | for any settings, every close of every run has its own entry, and if the evaluated prices of that one trade never fall by more than g from one look to the next, from the entry fill on, it loses less than the rupee cap plus quantity times (g + slippage + one tick) plus its exit fees; with fee rate and slippage both negative this assumes that no earlier look of the trade asked to exit |
| ScalperLoss.WorstCaseLossOfRun | src/trading/critical/engine.py:378-402 | so unless both are negative, if no evaluated price of the index ever gaps by more than g, every close of the run is within the bound |
| ScalperLoss.RaisedSaleBreaksBound | src/trading/critical/engine.py:378-402 | with both negative, a run in which a sale raises over its fee at 170 and fills after a look at 160 closes beyond the bound |
| ScalperThreads.CapUnderInterleaving | src/trading/critical/engine.py:211-435 | with gate, install, pick, give up, clear and count as separate steps of two threads, at most max_concurrent positions are open at every point of every interleaving |
| Candles.AcceptedIffNotLate | src/trading/candles.py:51-69 | a tick is dropped exactly when its bucket is below the highest bucket seen so far |
| Candles.BucketWindow | src/trading/candles.py:47-49 | a bucket starts at a multiple of its width and its tick lies within one width of the start |
| Candles.StreamingIsBatch | src/trading/candles.py:51-111 | for any ticks in any order, the emitted bars are strictly increasing, each the first, highest, lowest, last and count of its bucket's accepted ticks, one per bucket, and their counts sum to the accepted ticks |
| Candles.TimeframesRollUp | src/trading/candles.py:47-111 | for ticks in any order of which none is late for the finer width alone, every coarse candle is the roll-up of the fine candles in its window, for any two nested widths |
| CandleNesting.RollUpIff | src/trading/candles.py:47-111 | for any ticks, the coarse candles are the roll-ups of the fine ones if and only if every tick accepted at the coarse width is accepted at the fine one |
| CandleNesting.BackwardsTickBreaksRollUp | src/trading/candles.py:61-67 | one tick falling back a minute within its five minutes breaks the roll-up |
| Candles.FiveAndFifteenRollUp | src/trading/schemas.py:125-129 | for time-ordered ticks, 5m and 15m candles roll up from 1m, and 15m from 5m |
| CandleEngine.CandleAggregator.IngestTick | src/trading/candles.py:51-95 | the field updates compute exactly the specified transition and closed candle |
| CandleEngine.CandleAggregator.MaybeCloseStale | src/trading/candles.py:71-120 | a stale bar is returned and the aggregator emptied, otherwise nothing changes |
| CandleEngine.CandleAggregator.ToSaved | src/trading/candles.py:122-134 | the record is the one saved for the present bar |
| CandleEngine.CandleAggregator.FromState | src/trading/candles.py:136-152 | rebuilding from any record copies it field by field, and gives back the aggregator that saved it if one did |
| CandleEngine.Builder.RecoverFromStore | src/trading/candles.py:189-211 | each stored bar is either emitted because it is stale or put back into its aggregator |
| CandleEngine.Builder.HandleTick | src/trading/candles.py:245-263 | a usable tick reaches every listed timeframe of its index, and each closed bar is upserted and each open one persisted |
| CandleEngine.Builder.Sweep | src/trading/candles.py:265-275 | one closer pass emits exactly the stale bars |
| CandleRuns.SweepMeans | src/trading/candles.py:265-275 | a sweep closes exactly the bars whose bucket has ended: each becomes a row, its aggregator is emptied and its stored record dropped; all others stay |
| CandleEngine.AlwaysInSync | src/trading/candles.py:213-275 | at every handler boundary of every run the stored record is the aggregator's, or absent exactly when it is empty |
| CandleEngine.RestartIsSweep | src/trading/candles.py:189-211 | from a synchronised state a restart has exactly the effect of a sweep at that time |
| CandleEngine.RestartsAreTransparent | src/trading/candles.py:189-275 | any interleaving of ticks, sweeps and restarts ends in the same table, store and memory as the run with sweeps for restarts |
| CandleRuns.TableIsBatch | src/trading/candles.py:213-275 | for ticks in any order of which none reopens a closed bucket, and any sweeps and restarts, a last late sweep leaves as rows of a key exactly the batch candles of its index's accepted ticks |
| CandleRuns.OrderedTableIsBatch | src/trading/candles.py:213-275 | for ticks in time order, those are the candles of all its ticks |
| CandleRuns.Widths | src/trading/schemas.py:125-129 | the three widths are one minute, five minutes and a quarter of an hour |
| CandleRuns.LiveTableRollsUp | src/trading/candles.py:189-275 | in the live table, whatever the sweeps and restarts, for time-ordered ticks the 5m rows are the roll-ups of the 1m rows and the 15m rows of both |
| CandleRuns.TimelyNeverReopens | src/trading/candles.py:71-78 | when every sweep's clock is before the end of the buckets of the ticks after it, none of them reopens a bucket |
| CandleRuns.ReopenedRowLosesTicks | src/trading/candles.py:54-78 | two ticks of one minute with a sweep past its end between them leave a row that counts only the second |
| Wal.Find | src/trading/wal.py:76-88 | the opening search finds the first rotation index of the date that is missing or below the size limit |
| Wal.WALWriter.constructor | src/trading/wal.py:38-52 | a writer continues from the persisted counter, opens the segment the search finds, and is sound on an empty directory and on whatever a crash leaves |
| Wal.WALWriter.OpenCurrentFile | src/trading/wal.py:76-88 | the loop terminates on the first segment with room and opens it |
| Wal.WALWriter.AppendRecord | src/trading/wal.py:90-131 | on any date rotates, writes one record with the next number and syncs when the batch is full; after close the number is spent, nothing is written and the call fails; keeps the invariant when the date does not go back |
| Wal.WALWriter.FlushAll | src/trading/wal.py:133-139 | keeps the invariant; everything written becomes durable and the counter catches up |
| Wal.WALWriter.CloseAll | src/trading/wal.py:141-145 | keeps the invariant; the counter is persisted, the file synced and closed, the batch count left as it was |
| Wal.WALReader.ListSegments | src/trading/wal.py:154-165 | returns the directory's segments sorted by date and rotation index |
| Wal.WALReader.IterRecords | src/trading/wal.py:167-178 | yields the records of the segments in listing order |
| Wal.ExecutionKeepsInv | src/trading/wal.py:76-145 | in every execution, on an empty or an earlier directory, with rotations, syncs, closes and crashes inside or between calls: segments are created in listing order, all but the current one are durable, and the counter trails as it should |
| Wal.CounterIsSeqMinusUnsynced | src/trading/wal.py:118-145 | while a file is open the persisted counter is the sequence number minus the unsynced appends, of which there are at most max(1, n) - 1; a close brings the counter up to the number and leaves the count of unsynced appends |
| Wal.AppendMeans | src/trading/wal.py:90-131 | an append puts one record with the next number at the end of a segment of its date that is new or had room, rotates no sooner, and syncs and persists the counter exactly when the batch is full |
| Wal.SyncsMean | src/trading/wal.py:133-145 | a flush or close makes everything written durable and the counter exact, and writes no record |
| Wal.SegmentsBounded | src/trading/wal.py:76-107 | in every execution, crashes included, no segment is written to once it has reached the size limit |
| Wal.CrashCost | src/trading/wal.py:90-145 | whatever a crash at any moment leaves, inside a call or between two, is a prefix of what was appended with at most max(1, n) - 1 returned appends missing, and at most max(1, n) surviving numbers are handed out again, one less when no crash of the run hits a record in flight |
| Wal.NumberReissued | src/trading/wal.py:127-130 | with a sync after every record, a kill between sync and counter write does hand out number 1 again |
| Wal.TotalLoss | src/trading/wal.py:90-145 | over a whole run the log gains every returned append except at most max(1, n) - 1 for each crash, and nothing but records in flight besides |
| Wal.TotalReissued | src/trading/wal.py:90-145 | over a whole run the log gains at most max(1, n) repeated sequence numbers for each crash, counting those still to come, or max(1, n) - 1 when no crash hits a record in flight |
| Wal.FreshReissued | src/trading/wal.py:90-145 | so a log begun empty holds no more repetitions than that |
| Wal.CrashIsReopenable | src/trading/wal.py:90-145 | whatever a crash at any moment leaves of a sound writer's files can be reopened by a new writer on that or a later date |
| Wal.ReaderSeesAppendOrder | src/trading/wal.py:148-178 | reading the sorted segments returns the surviving records in append order |
| SignalGate.CooldownManager.ShouldSuppress | src/trading/strategies/risk.py:19-25 | suppresses exactly within the cooldown of the recorded time, and records the time only when it does not |
| SignalGate.RiskEngine.Admit | src/trading/strategies/risk.py:62-83 | the evicting loop decides and leaves the queues as specified; an unlisted signal touches nothing |
| SignalGate.SignalHandler.HandleSignal | src/trading/replay/engine.py:219-231 | cooldown before limiter before emission, with one counter changed per outcome |
| SignalGate.RateLimitRefines | src/trading/strategies/risk.py:68-82 | for times in order per strategy, the evicted queue answers exactly as counting over the whole admitted history |
| SignalGate.LimiterExactIff | src/trading/strategies/risk.py:68-82 | the agreement of both counts, for times in any order, restated on what was evicted and what is queued: none back in the hour, and as many back in the day as queued ones outside it |
| SignalGate.NeverTooLenient | src/trading/strategies/risk.py:68-82 | a signal no earlier than any before it is admitted only if the whole history admits it |
| SignalGate.NeverTooStrict | src/trading/strategies/risk.py:68-82 | while the admitted times are in order, any signal the whole history admits is admitted, even a late one |
| SignalGate.OutOfOrderForgets | src/trading/strategies/risk.py:71-73 | a run with times out of order in which the queue admits what the history would refuse |
| SignalGate.OutOfOrderOvercounts | src/trading/strategies/risk.py:71-77 | a run with times out of order in which the queue refuses what the history would admit |
| SignalGate.WindowsCapped | src/trading/strategies/risk.py:72-82 | no closed hour holds more than max_per_hour admitted signals and no closed day more than max_per_day |
| SignalGate.EmittedWindowsCapped | src/trading/strategies/engine.py:71-84 | the same for the signals emitted behind both gates |
| SignalGate.CooldownSpaces | src/trading/strategies/risk.py:19-25 | for timestamps in any order, emitted signals of one strategy and instrument are pairwise at least the cooldown apart |
| SignalGate.HeldBackIff | src/trading/strategies/risk.py:19-25 | for any signals in any order, one is held back by the cooldown if and only if some earlier one of its strategy and instrument got past it and the latest such one is less than the cooldown before it |
| SignalGate.LateEnoughPasses | src/trading/strategies/risk.py:19-25 | a signal at least a cooldown after every earlier one on its key always reaches the limiter |
| SignalGate.EverySignalCounted | src/trading/replay/engine.py:219-231 | emitted, cooldown-suppressed and risk-suppressed add up to the signals offered, and both breakdowns add up to emitted |
| SignalGate.CountsByKey | src/trading/replay/engine.py:228-231 | each breakdown counts the emitted signals of each strategy and of each action |
| SignalGate.NoLimiterEmitsAll | src/trading/replay/engine.py:223-229 | without a limiter everything past the cooldown is emitted, in order |
| Calendar.SearchFindsLast | src/trading/adapter.py:244-258 | for every month and weekday the search finds the one day of that weekday in the last seven days, so neither fallback is reachable |
| Calendar.LastTuesdayIsLast | src/trading/adapter.py:92-98 | the result is a Tuesday within the month's last seven days; the fallback 28 is never returned as such |
| Calendar.LastWeekdayIff | src/trading/adapter.py:244-258 | true if and only if a week later is another month |
| Calendar.MonthLengths | src/trading/adapter.py:92-98 | months alternate between 31 and 30 days with a second 31 in August, February has 28 or in leap years 29 |
| Calendar.DaysFollow | src/trading/adapter.py:92-98 | days are numbered without a gap through the ends of months and years, leap years included |
| Calendar.Millennium | src/trading/adapter.py:92-98 | 1 January 2000 is a Saturday, which with the day numbers fixes every weekday |
| OptionSymbols.WeeklyScannerIsPattern | src/trading/adapter.py:50-52 | the scanner accepts a string with these groups if and only if the weekly regular expression does |
| OptionSymbols.MonthlyScannerIsPattern | src/trading/adapter.py:47-49 | the same for the monthly regular expression |
| OptionSymbols.PatternsDisjoint | src/trading/adapter.py:47-52 | no string matches both regular expressions |
| OptionSymbols.MonthTables | src/trading/adapter.py:40-45 | months are named JAN to DEC, and coded by their digit up to September and by their first letter from October |
| OptionSymbols.MonthsRead | src/trading/adapter.py:40-45 | the parser reads those names and codes as those months: O, N and D as 10, 11 and 12 |
| OptionSymbols.DigitsAre | src/trading/adapter.py:261-297 | numbers print as decimal digits, most significant first, and are read as such |
| OptionSymbols.PrefixParts | src/trading/adapter.py:270-291 | exchange, root, year and month name for the last such weekday of a month, otherwise exchange, root, year, month character and two-digit day |
| OptionSymbols.WeeklyRoundTrip | src/trading/adapter.py:64-75 | for every date 2000-2099 and every strike, the weekly form parses back to the same root, expiry, strike and type |
| OptionSymbols.MonthlyRoundTrip | src/trading/adapter.py:76-88 | the monthly form parses back to the same root, strike and type, with the month's last Tuesday as expiry |
| OptionSymbols.SubscribedRoundTrip | src/trading/adapter.py:261-297 | a subscribed symbol parses back unchanged if and only if the expiry is not the last of its weekday in its month or is a Tuesday |
| OptionSymbols.ThursdayExpiryMisread | src/trading/adapter.py:76-88 | the subscribed symbol for Thursday 29 January 2026 parses back as Tuesday the 27th |
| OptionSymbols.AlignStrike | src/trading/adapter.py:29-31 | the strike is a multiple of the index's step and within half a step of the price |
| OptionSymbols.HalfwayStrike | src/trading/adapter.py:29-31 | a price halfway between two strikes goes to the even multiple of the step |
| OptionSymbols.AtmStrikesAre | src/trading/adapter.py:34-37 | the strikes run one step apart, 50 for NIFTY50 and 100 otherwise, with the nearest strike in the middle |
| OptionSymbols.BuildOptionSubscription | src/trading/adapter.py:261-297 | the nested loops list exactly one call and then one put per strike, in ascending order, on BSE for SENSEX and on NSE otherwise, under the index's root |
| OptionSymbols.SubscriptionDistinct | src/trading/adapter.py:261-297 | no symbol is listed twice, for any expiry date, spot and window, negative strikes included |
| Dedup.CacheIsMostRecent | src/trading/ingest.py:43-58 | after any calls the cache is the maxsize most recently offered distinct keys in recency order |
| Dedup.SeenIffRecent | src/trading/ingest.py:49-58 | a key is reported as seen if and only if it was offered before and fewer than maxsize other distinct keys were offered since |
| Dedup.DedupFilter.Seen | src/trading/ingest.py:49-58 | the in-place reorder, insert and evict answer and update by that rule |
| Alerts.AlertNotifier.RunTick | src/trading/ui/notifier.py:178-242 | the loops fire, skip and resolve exactly as the specified tick; the first number counts the firings, and every eligible alert is either fired or skipped |
| Alerts.AlertNotifier.EmitResolutions | src/trading/ui/notifier.py:287-324 | resolves each scanned rule that is neither eligible nor already marked, once |
| Alerts.EligibleIff | src/trading/ui/notifier.py:179-189 | a rule is eligible if and only if some reported alert of it is at least as severe as the minimum, on info < warn < crit, an unknown severity counting as info and an unknown minimum as crit |
| Alerts.TickMeans | src/trading/ui/notifier.py:178-324 | in a tick a rule fires if and only if it is eligible and has not fired, unresolved, within the dedup interval; every eligible rule then has a readable key; a rule resolves if and only if it is not eligible and last fired, unresolved, within the key's lifetime of twice the interval, at least a minute |
| Alerts.LastTickMeans | src/trading/ui/notifier.py:178-324 | the same for the last tick of any run, on that run's own events |
| Alerts.TickIsGood | src/trading/ui/notifier.py:178-242 | a tick fires only eligible rules and resolves only others, and afterwards no live key of a rule that is not eligible remains, even when a scan repeats keys |
| Alerts.ResolvedAfterFired | src/trading/ui/notifier.py:287-324 | every resolution has its own earlier firing of the rule with no resolution in between, key expiry included |
| Alerts.FiringsAreSpaced | src/trading/ui/notifier.py:196-229 | two firings of a rule without a resolution in between are more than the dedup interval apart, key expiry included |
| Alerts.HistoryIsNewest | src/trading/ui/notifier.py:327-333 | the stored history is always the newest max_entries events, newest first |
| Replay.Next | src/trading/replay/sources.py:208-211 | the source to read next has the least key, and is the first such source on a tie |
| Replay.OrderIs | src/trading/replay/sources.py:208-211 | events are ordered by time, then sequence number, then the name of their kind in dictionary order |
| Replay.MergeIsStableSort | src/trading/replay/sources.py:208-211 | merging sorted sources yields a stable sort of their concatenation |
| Replay.StableSortUnique | src/trading/replay/sources.py:208-211 | there is only one stable sort, so the merge is it |
| Replay.MergedIsTimeOrdered | src/trading/replay/sources.py:208-211 | the merged stream is time-ordered, as the engine's results require |
| Replay.ReplayBuildsAccepted | src/trading/replay/engine.py:233-340 | on a stream in any order, the candles built for a key and the bar still open are the batch candles of its accepted ticks, and a bar is still open if and only if some tick's bucket starts after the last event |
| Replay.ReplayBuildsAll | src/trading/replay/engine.py:233-340 | on a time-ordered stream the final sweep leaves no aggregator open, and the candles built per index and timeframe are the batch candles of its ticks, whose counts sum to the ticks read |
| Replay.CountsBalance | src/trading/replay/engine.py:289-340 | for every run, complete or aborted, the closes counted by timeframe add up to candles read plus candles synthesized |
| Replay.EventsCounted | src/trading/replay/engine.py:233-325 | each event is counted once under its kind, up to and including the first tick of an index without aggregators; the run aborts if and only if there is one |
| Replay.ClosesByTimeframe | src/trading/replay/engine.py:289-340 | the closes counted for a timeframe are its built candles plus the candles of it read from the source |
| Replay.ReplayEngine.Run | src/trading/replay/engine.py:305-340 | the event loop and final sweep compute exactly the specified run; nothing is swept after an abort or an empty stream |

## Left out

- Aliasing between the engines and the objects their dictionaries hold: `IndexState` and the aggregators are values in the engines' maps (the aggregator is also proved as a class of its own).
- Candidate selection, confidence, order-flow signals, regime decisions, open-interest walls, session feedback and strike histories: arbitrary inputs of an entry or exit check.
- Interleavings of the two scalper threads beyond the concurrency cap.
- Exceptions raised while an entry is built leave the state unchanged in the model; the log line they cause is not modelled.
- Failed writes to the log file, Redis or Postgres, which the code swallows; torn lines, blank lines and JSON encoding; the write-ahead log's listing by date prefix.
- A crash inside one candle handler.
- Write-ahead log dates that run backwards: Wal.WALWriter.AppendRecord states the step, the run results exclude them.
- Stored candle records that no aggregator saved: recovery treats them as empty.
- CandleRuns.TableIsBatch: excludes ticks for a bucket the closer has already swept, which reopen and upsert the bucket again (CandleRuns.ReopenedRowLosesTicks).
- IEEE floating point: all arithmetic is exact.
- `\d` in the symbol patterns means the ten ASCII digits.
- Halt reasons and exit detail texts; the final sort and limit of the trade table.
- Order persistence, publishing, reference-price lookup (its result is an input) and the validity of a signal's text fields.
- Sink delivery, the delivery counters and the test tick of the alert notifier.
- Strategy callbacks, greeks and output files of the replay engine; reading events from the write-ahead log and from Postgres; source fingerprints.
- Gap and freeze detectors, batch buffer, subscriptions for indices, tick normalisation, authentication, polling, configuration, user interface and scripts: plumbing, or easy members.
- ScalperLoss.WorstCaseLoss: uses max(max_loss_rupees, 0), since with a negative cap a position can be closed at its entry price before any gap has been seen.
- ScalperRuns.CooldownRespected: needs positive and non-decreasing loss timestamps, since a recorded time of 0 switches the cooldown off.
