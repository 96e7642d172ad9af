# Verified model of the RqCore trading day, its broker and cache services, and the withdrawal simulator

RqCore trades two Seeking Alpha strategies, PQP and AP, once a day around noon, US Eastern time. This project models
the parts of it that carry state, arithmetic or a protocol, and proves what they are relied on for.

**The trading day** (`LocalTime`, `Slots`, `Scheduler`, `SchedulerRuns`, `Calendar`, `FastRunners`, `TradingDays`,
`DailyTrades`). A scheduler loop spawns the tasks that are due, moves their trigger times on and sleeps until the
soonest. Trigger times are local wall-clock slots turned into instants. A run is live if its clock is within 90 seconds
of noon, and a flag keeps it from trading twice. `Scheduler` proves the loop body against functions of the trigger
times; `SchedulerRuns` reasons about whole runs over an arbitrary non-decreasing clock; `TradingDays` composes lateness, slots, noon window
and flag, and `DailyTrades` carries the budgets on to the broker. Instants are in nanoseconds. A zone gives every date
an offset and the instant at which it comes into force; changes of any size are allowed as long as they happen within
the first three hours of the date on both clocks.

**Orders** (`Orders`, `BrokersWatchers`, `PlacementBudgets`). The budget of a day is split over the downloaded events,
divided by a price, rounded to whole shares and submitted with a limit rounded to cents, in two passes. Money is a real
number; a price is a number or NaN. The Rust cast to i32 saturates, a NaN quotient becomes 0 shares, and division by a
zero price is defined accordingly.

**The shared quote stream** (`MarkValueCaches`). The PQP and the AP run share one background stream through a 16-bit
user count. Streams may end by themselves and starts may fail.

**Spreadsheet addresses** (`CellAddresses`, `SheetUrls`). The printer and the parser of column names, and the
normalisation of sheet addresses over a general model of splitting at a substring.

**The withdrawal simulator** (`Statistics`, `Schedules`, `WithdrawalPaths`, `WithdrawalLimits`,
`WithdrawalSimulations`). The loops of the simulator fill arrays of prices, shares and values, which are averaged and
whose medians are taken. They are proved against recursive functions of the path; the conservation laws, closed forms
and comparisons are proved about those functions.

## Findings

- `start_quote_stream` takes its user off again when the stream cannot be started, but the run still calls
  `stop_quote_stream` at its end. The count then falls below the number of holders, and the stop of the failed run can
  abort the stream of another (`MarkValueCaches.FailedStartStealsStream`). A stop does so if and only if the stream
  runs, the count is one and more holders were lost than stops absorbed (`MarkValueCaches.CutsOffIff`), and one still
  can if and only if more were lost than absorbed (`MarkValueCaches.CanCutOffIff`).
- The driver of the withdrawal simulator does not bound the withdrawal percentage from above. The claim that withdrawing
  never leaves more invested than buy and hold holds up to 200 percent, and beyond that exactly if no two withdrawals
  happen after money was paid in (`WithdrawalSimulations.CurvesNeverAheadIff`; an accepted input that fails is in
  `WithdrawalSimulations.AcceptedInputAhead`); likewise for never beating buy and hold on rising prices
  (`WithdrawalLimits.NeverBeatsHoldingIff`).
- `localtimeonly2future_datetime_tz` adds 24 hours to find tomorrow. In the last hours before a date that is shorter
  than 24 hours this skips a date (`LocalTime.FutureLocalTimeEarliestIff`, `SkippedDateExample`).
- `convert_to_csv_export_url` is documented to extract gid `0` from an address that ends in `?gid=0#gid=0`. The code
  extracts `0#` (`SheetUrls.DocumentedAddress`); the model follows the code. The named sheet is exported exactly if its
  gid is followed by nothing, by `&` or by a second `gid=` (`SheetUrls.NamedSheetIsExportedIff`).
- Converting an address twice can differ from converting it once if the sheet id contains `gid=`
  (`SheetUrls.ConversionIdempotentIff`, `SheetUrls.ConvertedTwiceExample`).

## Model

| member | source | states |
|---|---|---|
| TradingDays.AtMostOneLivePlacementADay | src/rqcoresrv/src/services/rqtask_scheduler.rs:79-99 | over every run of the scheduler, if each task run reads its clock less than 28 minutes after its slot, a strategy calls `place_orders` in live mode at most once per local date |
| TradingDays.ExactlyOneLiveRunADay | src/rqcoresrv/src/robotrader/fast_runner_task.rs:70-84 | if the scheduler is timely, the task's runs read their clocks less than 28 minutes late and only the run of that date's last slot less than 130 seconds late, every date run through has one run for each slot, four unless the scheduler started during the date, and exactly one is live |
| TradingDays.LivePlacementIff | src/rqcoresrv/src/robotrader/fast_runner.rs:474-502 | on such a date the strategy places live orders exactly once if the calendar makes it a run day, a Monday for PQP, a first weekday from the 1st or the 15th for AP, and the live run gets a plausible download within 270 seconds, and not at all otherwise |
| DailyTrades.LiveSubmissionsNameDownload | src/common/broker-common/src/brokers_watcher.rs:221-240 | each submission of a live placement names the security and the side of an event downloaded by that day's live run, at the cached price, else the event's own, else the first bar's, with the shares and the limit of that price |
| TradingDays.LiveOrdersNameDownload | src/rqcoresrv/src/robotrader/fast_runner.rs:716-727 | everything placed live on a date was downloaded by a live run of that date within 270 seconds, order by order for the downloaded securities and sides |
| DailyTrades.DailyBuysAtLimits | src/common/broker-common/src/brokers_watcher.rs:266-288 | what the broker receives live from both strategies on an Eastern date is worth, in buy limits, at most 1.021 times the buy budgets of the date plus half a cent a share, at any positive prices |
| DailyTrades.StrategyBuysAtLimits | src/common/broker-common/src/brokers_watcher.rs:266-288 | the same for one strategy and its own buy budget |
| TradingDays.DailyLiveValueIsBounded | src/rqcoresrv/src/robotrader/fast_runner.rs:283-300 | on an Eastern date both tasks together order at most 200,000 live, and nothing when neither strategy rebalances, for any downloaded events |
| TradingDays.LiveByLateness | src/rqcoresrv/src/robotrader/fast_runner_task.rs:226-232 | a run is live exactly if slot time plus lateness falls within 90 seconds of noon on the slot's own date |
| TradingDays.CloseToNoonAfterSlot | src/rqcoresrv/src/robotrader/fast_runner_task.rs:70-78 | less than 28 minutes late only the last slot of a date can be live; less than 130 seconds late it always is |
| TradingDays.LiveRunIsLastOfDay | src/rqcoresrv/src/robotrader/fast_runner_task.rs:189-201 | a live run was triggered by the last slot of the date its clock shows |
| TradingDays.LiveRunDate | src/rqcoresrv/src/robotrader/fast_runner.rs:256-266 | in Eastern time the UTC date that decides whether a strategy runs is the local date of the live run |
| TradingDays.LiveWithinBudget | src/rqcoresrv/src/robotrader/fast_runner.rs:494-501 | the live placements of one strategy on a date stay within the budget of that strategy for the date |
| TradingDays.LiveOrdersOfBudget | src/rqcoresrv/src/robotrader/fast_runner.rs:490-501 | everything placed live on a date is the date's budget split over a tradable download |
| TradingDays.PromptByPace | src/rqcoresrv/src/services/rqtask_scheduler.rs:92-99 | loop time, sleep overshoot and start delay of a task's runs that add up to less than the bound give the promptness the day theorems assume |
| TradingDays.SlotsInTurn | src/rqcoresrv/src/robotrader/fast_runner_task.rs:31-46 | a timely scheduler works through the slots in order: after n firings the pending trigger is the slot n places on |
| TradingDays.RunsByPendingSlot | src/rqcoresrv/src/robotrader/fast_runner_task.rs:62-84 | how many runs, and how many live runs, a date has had is determined by the first and the pending slot, under the same promptness |
| SchedulerRuns.EveryTriggerFires | src/rqcoresrv/src/services/rqtask_scheduler.rs:79-122 | each registered trigger that the clock reaches is fired, by the first turn that reaches it, and at most the loop time plus the sleep overshoot late |
| SchedulerRuns.BoundedLateness | src/rqcoresrv/src/services/rqtask_scheduler.rs:101-119 | every firing after the first turn is at most one body time plus one overshoot late |
| SchedulerRuns.TriggersAhead | src/rqcoresrv/src/services/rqtask_scheduler.rs:80-99 | after a turn every trigger is later than the turn's clock; a trigger changes exactly if it fired, and then to a strictly later one |
| SchedulerRuns.SleepsAndProgresses | src/rqcoresrv/src/services/rqtask_scheduler.rs:101-119 | with at least one task every turn sleeps a positive time, the clock moves on, and the next turn has a due task |
| SchedulerRuns.HeartbeatSpacing | src/rqcoresrv/src/services/rqtask_scheduler.rs:42-45 | two runs of the heartbeat are at least ten minutes apart, and the next is due at most ten minutes after the body that fired it |
| SchedulerRuns.IdleTurns | src/rqcoresrv/src/services/rqtask_scheduler.rs:120-122 | without tasks the loop looks again after a minute, up to its own delays |
| SchedulerRuns.FiringsHaveDistinctTriggers | src/rqcoresrv/src/services/rqtask_scheduler.rs:84-99 | no trigger is fired twice by one task |
| Scheduler.UpdatedTimeIsLater | src/rqcoresrv/src/services/rqtask_scheduler.rs:42-45 | every task kind moves its trigger strictly beyond the clock readings of its update, the FastRunner tasks to a slot |
| Scheduler.DueTasksExact | src/rqcoresrv/src/services/rqtask_scheduler.rs:80-90 | a task is collected exactly if its trigger is not after now, once, in registry order |
| Scheduler.RqTaskScheduler.Turn | src/rqcoresrv/src/services/rqtask_scheduler.rs:80-122 | a loop body spawns exactly the due tasks, replaces exactly their triggers and sleeps until the soonest of the new triggers, or 60 seconds without tasks |
| Scheduler.RqTaskScheduler.CollectDue | src/rqcoresrv/src/services/rqtask_scheduler.rs:80-90 | the collecting loop yields the due tasks of the registry |
| Scheduler.RqTaskScheduler.SpawnDue | src/rqcoresrv/src/services/rqtask_scheduler.rs:92-99 | the due tasks are spawned in order and their stored trigger times replaced, also if the registry holds a task twice |
| Scheduler.RqTaskScheduler.ChoosePause | src/rqcoresrv/src/services/rqtask_scheduler.rs:101-122 | the scan for the soonest trigger finds the minimum, and the sleep is what is left until then |
| Scheduler.RqTaskScheduler.ScheduleTask | src/rqcoresrv/src/services/rqtask_scheduler.rs:64-67 | the trigger of the new task joins the pending ones, no other changes, and the registry stays without repetitions exactly if the task was not in it |
| Scheduler.TurnOfDistinctTasks | src/rqcoresrv/src/services/rqtask_scheduler.rs:92-99 | for distinct tasks the spawn loop updates each due task once and no other |
| Scheduler.RqTask.UpdateNextTriggerTime | src/rqcoresrv/src/robotrader/fast_runner_task.rs:56-60 | an update leaves a trigger strictly after the earliest of its clock readings, and for a FastRunner task at a slot |
| Slots.SlotsBeforeNoon | src/rqcoresrv/src/robotrader/fast_runner_task.rs:33-39 | the slots of PQP and of AP in seconds before noon, PQP first at each |
| Slots.NextTriggerEarliestIff | src/rqcoresrv/src/robotrader/fast_runner_task.rs:31-46 | for one clock reading the minimum over the four slots is the earliest slot instant after it, over all dates, exactly if the reading is not in the last hours before a short date |
| Slots.NextTriggerIsNextSlot | src/rqcoresrv/src/robotrader/fast_runner_task.rs:41-45 | the same for four separate clock readings that no slot separates |
| Slots.TimelyUpdateVisitsNextSlot | src/rqcoresrv/src/robotrader/fast_runner_task.rs:187-202 | readings less than 25 minutes after a slot give the slot after it, so none is skipped or repeated |
| Slots.NextTriggerIsSlot | src/rqcoresrv/src/robotrader/fast_runner_task.rs:41-45 | the next trigger is always some slot instant after the readings |
| Slots.SlotOrder | src/rqcoresrv/src/robotrader/fast_runner_task.rs:33-39 | the numbering of slot instants over all dates is strictly increasing |
| LocalTime.FutureLocalTimeIsFuture | src/common/rqcommon/src/utils/time.rs:7-19 | the result is strictly after now, shows the target on the local clock and is never the `MIN_UTC` fallback, for targets from 03:00 and changes before it |
| LocalTime.FutureLocalTimeEarliestIff | src/common/rqcommon/src/utils/time.rs:7-19 | it is the earliest such instant exactly if the target is still ahead today or adding 24 hours does not skip a date |
| LocalTime.FromLocalEarliestIsFirst | src/common/rqcommon/src/utils/time.rs:16-18 | the instant chosen for a local time is the first at which the clock shows it, and the fallback is taken exactly if the clock never does |
| LocalTime.SkippedDateExample | src/common/rqcommon/src/utils/time.rs:12-14 | a concrete reading before a spring change for which tomorrow's target is skipped |
| FastRunners.LiveWindow | src/rqcoresrv/src/robotrader/fast_runner_task.rs:70-76 | the truncated-seconds test is the open interval of 90 seconds around noon of the clock's date |
| FastRunners.Run | src/rqcoresrv/src/robotrader/fast_runner_task.rs:62-165 | a run of either task makes exactly the placements that its mode, its date, its deadline and its downloads determine, forced runs included, and none unforced outside the run days of the calendar |
| FastRunners.RunsTodayIff | src/rqcoresrv/src/robotrader/fast_runner.rs:256-300 | a strategy runs exactly on its run days by the calendar, which are exactly the days on which it has a budget |
| FastRunners.NothingOutsideRunDays | src/rqcoresrv/src/robotrader/fast_runner_task.rs:86-89 | on any other day an unforced run places nothing |
| FastRunners.RunPlacesFrom | src/rqcoresrv/src/robotrader/fast_runner_task.rs:119-145 | a run places what it downloaded itself in a pass begun less than 30 seconds, live 270 seconds, into its loop; a forced run only simulates, from its first pass |
| FastRunners.ForcedRunMakesOnePass | src/rqcoresrv/src/robotrader/fast_runner_task.rs:132-135 | what a forced run would download after its first pass does not matter |
| FastRunners.OrdersBySide | src/rqcoresrv/src/robotrader/fast_runner.rs:631-645 | each side with events is ordered for exactly the strategy's budget of that side, AP sells for nothing |
| FastRunners.OrdersForName | src/rqcoresrv/src/robotrader/fast_runner.rs:716-727 | each order is for the security, company and side of the event in its place, with the event's price |
| FastRunners.RunPlacesOnce | src/rqcoresrv/src/robotrader/fast_runner_task.rs:218-289 | whatever is downloaded a run places at most once, within its budget, and live only unforced, on a run day and close to noon |
| FastRunners.LoopTradesFirstTradable | src/rqcoresrv/src/robotrader/fast_runner_task.rs:256-273 | an unforced run trades exactly on the first tradable download of a pass begun before the deadline |
| FastRunners.LoopPlacesIff | src/rqcoresrv/src/robotrader/fast_runner.rs:474-502 | an unforced loop places orders if and only if some pass begun in time downloads something tradable |
| FastRunners.OrdersWithinBudget | src/rqcoresrv/src/robotrader/fast_runner.rs:631-645 | the orders of one placement are worth at most the budget of the strategy, exactly the budget if no side is empty |
| FastRunners.FastRunner.LoopImpl | src/rqcoresrv/src/robotrader/fast_runner.rs:474-502 | one pass trades only a tradable download, only if nothing was traded before, and raises the flag |
| FastRunners.FastRunner.CountOrderTypes | src/rqcoresrv/src/robotrader/fast_runner.rs:704-714 | the buys and the sells of the list are counted |
| FastRunners.FastRunner.DeterminePositionMarketValues | src/rqcoresrv/src/robotrader/fast_runner.rs:452-472 | every event gets in place its equal part of its side's budget |
| Calendar.ApRunsTwiceAMonth | src/rqcoresrv/src/robotrader/fast_runner.rs:268-281 | in every month AP runs on exactly two dates, both weekdays, exactly 14 days apart, and either both are PQP days or neither is |
| Calendar.ApRunsOn | src/rqcoresrv/src/robotrader/fast_runner.rs:268-281 | the AP days are the first weekdays on or after the 1st and the 15th |
| Calendar.ApDateIsFirstWeekday | src/rqcoresrv/src/robotrader/fast_runner.rs:268-277 | the AP date of any day is the first weekday from the later of the 1st and the 15th not after the day |
| Calendar.WeekdaysAreAnchored | src/rqcoresrv/src/robotrader/fast_runner.rs:259 | the day-of-week numbers are those of the calendar: known dates have their known days |
| Calendar.NextWeekday | src/rqcoresrv/src/robotrader/fast_runner.rs:259 | consecutive days have consecutive days of the week |
| Calendar.LeapYears | src/rqcoresrv/src/robotrader/fast_runner.rs:268-277 | the leap-year rule at a century, a fourth century and ordinary years |
| Calendar.FirstWeekdayFromIsFirst | src/rqcoresrv/src/robotrader/fast_runner.rs:273-277 | the weekend shift gives the first weekday from the date on |
| Calendar.PqpDateIsTheLastMonday | src/rqcoresrv/src/robotrader/fast_runner.rs:259-262 | the PQP date is the one Monday among the last seven days, today included |
| Calendar.PqpRunsOnMondays | src/rqcoresrv/src/robotrader/fast_runner.rs:266 | PQP runs exactly on Mondays |
| Calendar.BudgetIsSplit | src/rqcoresrv/src/robotrader/fast_runner.rs:283-300 | the three budgets total 200,000 on a run day and 0 on others, a strategy has a budget exactly if it runs, PQP sells for 60,000, and when both run the buys are split equally |
| Calendar.DateOfDayNumber | src/rqcoresrv/src/robotrader/fast_runner.rs:257-262 | every day number is that of a valid date |
| Calendar.DayNumberInjective | src/rqcoresrv/src/robotrader/fast_runner.rs:257-262 | valid dates and day numbers correspond one to one, so weekday arithmetic on numbers is date arithmetic |
| Orders.OrdersNameEvents | src/rqcoresrv/src/robotrader/fast_runner.rs:716-727 | each order has the security, company, side and known price of the event in its place and its side's part as value |
| Orders.PartsMakeBudget | src/rqcoresrv/src/robotrader/fast_runner.rs:455-471 | the part times the number of events on the side is the side's budget |
| Orders.AllocationConservesBudget | src/rqcoresrv/src/robotrader/fast_runner.rs:452-472 | the parts of a non-empty side add up to exactly its budget, those of an empty side to nothing |
| BrokersWatchers.VisitsAreAStablePartition | src/common/broker-common/src/brokers_watcher.rs:221-238 | every order is visited exactly once, those with a cached price first, both groups in input order |
| BrokersWatchers.AttemptPrices | src/common/broker-common/src/brokers_watcher.rs:221-238 | each attempt is at the cached price if that is a number, else at the known price if that is a number, whatever the bars are, else at the first bar's close, else NaN |
| BrokersWatchers.SubmissionsFollowOrders | src/common/broker-common/src/brokers_watcher.rs:265-289 | each submission is for an order's security and side, with the whole shares at the attempt's price and their limit |
| BrokersWatchers.LogTells | src/common/broker-common/src/brokers_watcher.rs:243-255 | the log line tells whether the order had no price, bought no share or is sent, with its price and shares |
| BrokersWatchers.LogAnnouncesSubmissions | src/common/broker-common/src/brokers_watcher.rs:254-258 | the log announces exactly the submissions of live trading, in order, also in a simulation |
| BrokersWatchers.RoundIsNearest | src/common/broker-common/src/brokers_watcher.rs:273 | rounding goes to the nearest whole number and away from zero halfway |
| BrokersWatchers.LimitIsWholeCents | src/common/broker-common/src/brokers_watcher.rs:273-284 | a limit is the whole number of cents nearest to 2.1 percent above or below the price |
| BrokersWatchers.SharesAtTheEdges | src/common/broker-common/src/brokers_watcher.rs:248-249 | no shares without value; a zero price saturates the share count |
| BrokersWatchers.BrokersWatcher.PlaceOrders | src/common/broker-common/src/brokers_watcher.rs:170-240 | with both clients the submissions and log lines are those of the visits in that order, without them nothing is submitted |
| BrokersWatchers.BrokersWatcher.PlaceKnown | src/common/broker-common/src/brokers_watcher.rs:223-232 | the first pass attempts exactly the orders with a cached price and sets aside exactly the others |
| BrokersWatchers.BrokersWatcher.PlaceUnknown | src/common/broker-common/src/brokers_watcher.rs:234-238 | the second pass attempts the orders set aside, in order |
| BrokersWatchers.BrokersWatcher.ReadMarks | src/common/broker-common/src/brokers_watcher.rs:178-193 | the price table holds exactly the cached values that are not NaN |
| BrokersWatchers.BrokersWatcher.PlaceOrder | src/common/broker-common/src/brokers_watcher.rs:242-291 | a NaN price or no whole share is logged and not submitted; else the share count goes out at the side's limit unless simulated |
| BrokersWatchers.BrokersWatcher.GetKnownLastOrIbPrice | src/common/broker-common/src/brokers_watcher.rs:293-327 | the known last price if it is a number, whatever the bars are, else the close of the first bar, else NaN |
| BrokersWatchers.SubmissionsAreSized | src/common/broker-common/src/brokers_watcher.rs:243-258 | no order is submitted in a simulation, without a price or with fewer than one share |
| PlacementBudgets.PlacedWithinBudget | src/common/broker-common/src/brokers_watcher.rs:242-289 | over a day's priced orders of a side, shares times price stay within its budget, and buys at their limits within 1.021 times the budget plus half a cent a share; sells likewise from below; the rounding to shares leaves less than the sum of the prices unspent |
| PlacementBudgets.SubmissionsNameEvents | src/common/broker-common/src/brokers_watcher.rs:221-289 | what reaches the broker carries the security and the side of an event, whose own price is used when none is cached |
| PlacementBudgets.ShortfallBounded | src/common/broker-common/src/brokers_watcher.rs:248 | rounding to whole shares leaves less than the sum of the prices unspent |
| PlacementBudgets.AttemptsConserveValue | src/common/broker-common/src/brokers_watcher.rs:221-238 | the two passes neither lose nor repeat any of the ordered value |
| PlacementBudgets.SubmittedAtLimits | src/common/broker-common/src/brokers_watcher.rs:266-288 | the value at the limits is that of the orders the broker receives |
| PlacementBudgets.SharesFit | src/common/broker-common/src/brokers_watcher.rs:248 | the whole shares fit the value and one more would not, short of the i32 bound |
| MarkValueCaches.AlwaysConsistent | src/common/memdb/src/mark_value_cache.rs:60-145 | after any sequence of starts, failed starts, stops and self-ending streams every stream is stored, finished or aborted, at most one runs, and none without users |
| MarkValueCaches.RunningAfter | src/common/memdb/src/mark_value_cache.rs:60-145 | after any steps, a successful start leaves a stream running, new exactly if none ran; a failed start leaves what ran; a stop leaves it running unless it releases the last counted user; an ended stream runs no more |
| MarkValueCaches.WithoutLosses | src/common/memdb/src/mark_value_cache.rs:125-145 | with matched starts and stops, no failed start and no 16-bit overflow the count is the number of holders and a stop aborts a running stream exactly if it is the last holder's |
| MarkValueCaches.CountTracksHolders | src/common/memdb/src/mark_value_cache.rs:60-80 | the count falls short of the holders by exactly the lost ones, one per failed start and per 16-bit overflow, less the stops that found it at zero |
| MarkValueCaches.CutsOffIff | src/common/memdb/src/mark_value_cache.rs:131-143 | a stop aborts a running stream under other holders if and only if the stream runs, the count is one and more holders were lost than absorbed; how many it cuts off |
| MarkValueCaches.CanCutOffIff | src/common/memdb/src/mark_value_cache.rs:60-145 | a matched run can be continued without a further loss to a stop that cuts holders off if and only if more holders were lost than absorbed |
| MarkValueCaches.FailedStartStealsStream | src/common/memdb/src/mark_value_cache.rs:92-96 | a run whose start failed aborts, by its own stop, the stream another run holds |
| MarkValueCaches.StatusesAreFinal | src/common/memdb/src/mark_value_cache.rs:99-121 | over any further steps no stream is forgotten and none runs again once it has stopped |
| MarkValueCaches.MarkValueCache.StartQuoteStream | src/common/memdb/src/mark_value_cache.rs:60-123 | the counter, the stored task and the spawned streams after a start, with an empty universe and a failing builder; a stream runs afterwards exactly if one ran or could be started |
| MarkValueCaches.MarkValueCache.StopQuoteStream | src/common/memdb/src/mark_value_cache.rs:125-145 | the same after a stop, aborting only at zero users |
| MarkValueCaches.MarkValueCache.StreamEnds | src/common/memdb/src/mark_value_cache.rs:99-119 | a stream whose receiver ends is finished, nothing else changes |
| MarkValueCaches.CacheHoldsLatest | src/common/memdb/src/mark_value_cache.rs:102-112 | after any updates the cache holds each ticker's latest price that is not NaN, with its time, or what it held before if none came |
| MarkValueCaches.MarkValueCache.Init | src/common/memdb/src/mark_value_cache.rs:47-58 | after init exactly the universe is present, without prices |
| CellAddresses.CellRoundTrip | src/common/rqcommon/src/utils/rqgsheets.rs:181-210 | parsing a printed column and row gives them back zero-based, for every u32 column and every row |
| CellAddresses.NameOfNumber | src/common/rqcommon/src/utils/rqgsheets.rs:202-210 | every name of upper-case letters is what the printer gives for its number |
| CellAddresses.NumberOfName | src/common/rqcommon/src/utils/rqgsheets.rs:192-210 | the number read from a printed name is the printed number |
| CellAddresses.ColumnOrder | src/common/rqcommon/src/utils/rqgsheets.rs:202-210 | columns are ordered by the length of their names, then alphabetically |
| CellAddresses.NameLength | src/common/rqcommon/src/utils/rqgsheets.rs:204-208 | a name has at most n letters exactly if the number is at most 26 + ... + 26^n |
| CellAddresses.SevenLetters | src/common/rqcommon/src/utils/rqgsheets.rs:202-210 | seven letters suffice for every u32 column |
| CellAddresses.ParsedCellPrints | src/common/rqcommon/src/utils/rqgsheets.rs:181-200 | a cell id that parses has the letters and the row of the address printed for its result |
| CellAddresses.ParsesIff | src/common/rqcommon/src/utils/rqgsheets.rs:192-199 | letters followed by digits parse exactly if the column is named and fits the machine and the row is not zero; without digits, or with too many, the first row is meant |
| CellAddresses.CaseDoesNotMatter | src/common/rqcommon/src/utils/rqgsheets.rs:194 | upper and lower case name the same cell |
| CellAddresses.DigitsMayStandAnywhere | src/common/rqcommon/src/utils/rqgsheets.rs:185-191 | a digit may stand before or behind a letter |
| CellAddresses.OtherCharactersIgnored | src/common/rqcommon/src/utils/rqgsheets.rs:185-191 | characters that are neither letters nor digits do not matter |
| CellAddresses.ColumnNumberToLetter | src/common/rqcommon/src/utils/rqgsheets.rs:202-210 | the division loop terminates with the column name |
| CellAddresses.ParseCellId | src/common/rqcommon/src/utils/rqgsheets.rs:181-200 | the scanning loops compute row and column or detect the overflow or underflow |
| SheetUrls.ConversionIdempotentIff | src/common/rqcommon/src/utils/rqgsheets.rs:140-156 | converting twice is converting once exactly if the extracted id contains no `gid=` or the text inside it is the extracted gid |
| SheetUrls.SheetIdOfExport | src/common/rqcommon/src/utils/rqgsheets.rs:142-146 | the id of a converted address is read back |
| SheetUrls.GidOfExport | src/common/rqcommon/src/utils/rqgsheets.rs:149-153 | the gid of a converted address is read back unless the id contains `gid=` |
| SheetUrls.NamedSheetIsExportedIff | src/common/rqcommon/src/utils/rqgsheets.rs:140-156 | an address that names a sheet, on any page of the spreadsheet, converts to the export of that sheet if and only if the gid is followed by nothing, by `&` or by a second `gid=` |
| SheetUrls.DocumentedAddress | src/common/rqcommon/src/utils/rqgsheets.rs:140 | for an address of the documented form the extracted gid keeps the `#` of the fragment |
| SheetUrls.ConvertedTwiceExample | src/common/rqcommon/src/utils/rqgsheets.rs:148-155 | a concrete address whose second conversion differs from its first |
| SheetUrls.DefaultParts | src/common/rqcommon/src/utils/rqgsheets.rs:142-153 | without `gid=` the first sheet is exported, without `/d/` the id is empty |
| SheetUrls.ExtractedParts | src/common/rqcommon/src/utils/rqgsheets.rs:142-153 | an extracted id has no slash, an extracted gid neither `&` nor `gid=` |
| SheetUrls.SplitJoins | src/common/rqcommon/src/utils/rqgsheets.rs:142-153 | the pieces of a split contain no separator and join to the text |
| WithdrawalSimulations.CurvesNeverAheadIff | src/rqcoresrv/src/webapps/withdrawal_simulator/withdrawal_simulator.ts:249-271 | on every day the average and the median invested value are no more than those of buy and hold, for all random returns, exactly if at most 200 percent are withdrawn at a time or no two withdrawals happen after money was paid in |
| WithdrawalSimulations.AcceptedInputAhead | src/rqcoresrv/src/webapps/withdrawal_simulator/withdrawal_simulator.ts:104-149 | an input the driver accepts for which the guarantee fails |
| WithdrawalSimulations.InvestedAtMostHeld | src/rqcoresrv/src/webapps/withdrawal_simulator/withdrawal_simulator.ts:204-244 | the same on every single path |
| WithdrawalSimulations.AverageTotalConserves | src/rqcoresrv/src/webapps/withdrawal_simulator/withdrawal_simulator.ts:275-294 | the average total curve is what was paid in plus the average gain on the shares held |
| WithdrawalSimulations.WithdrawalSimulation | src/rqcoresrv/src/webapps/withdrawal_simulator/withdrawal_simulator.ts:179-247 | the loops over all paths compute the accounts of every path and day |
| WithdrawalSimulations.WithdrawalSimulationResult | src/rqcoresrv/src/webapps/withdrawal_simulator/withdrawal_simulator.ts:249-294 | the curves are the averages and the medians over the paths, and the total curve their sums |
| WithdrawalSimulations.AverageAndMedian | src/rqcoresrv/src/webapps/withdrawal_simulator/withdrawal_simulator.ts:249-259 | per day the average and then the median of the column, with the median sorting the column in place |
| WithdrawalSimulations.DailyPrice | src/rqcoresrv/src/webapps/withdrawal_simulator/withdrawal_simulator.ts:179-186 | the price loop compounds the daily returns |
| WithdrawalSimulations.DailyAddDep | src/rqcoresrv/src/webapps/withdrawal_simulator/withdrawal_simulator.ts:188-194 | the deposit schedule of the input |
| WithdrawalSimulations.DailyWithDraw | src/rqcoresrv/src/webapps/withdrawal_simulator/withdrawal_simulator.ts:196-202 | the withdrawal schedule of the input |
| WithdrawalSimulations.DailyShares | src/rqcoresrv/src/webapps/withdrawal_simulator/withdrawal_simulator.ts:204-218 | the share loop computes shares held and value withdrawn for every day |
| WithdrawalSimulations.DailySharesBH | src/rqcoresrv/src/webapps/withdrawal_simulator/withdrawal_simulator.ts:220-228 | the buy-and-hold shares for every day |
| WithdrawalSimulations.PricesOfReturns | src/rqcoresrv/src/webapps/withdrawal_simulator/withdrawal_simulator.ts:179-186 | every positive price path arises from returns above a total loss |
| WithdrawalLimits.NeverAheadIff | src/rqcoresrv/src/webapps/withdrawal_simulator/withdrawal_simulator.ts:204-228 | at all prices the shares stay at most those of buy and hold exactly under that condition on the input |
| WithdrawalLimits.WithdrawsTwiceIff | src/rqcoresrv/src/webapps/withdrawal_simulator/withdrawal_simulator.ts:196-202 | the condition on the schedule is a count of whole withdrawal periods from the first paid month on, known before the simulation, for every accepted input |
| WithdrawalLimits.TwoWithdrawalsOvertake | src/rqcoresrv/src/webapps/withdrawal_simulator/withdrawal_simulator.ts:138 | otherwise there are rising prices at which the withdrawing investor holds more shares, and is worth more the day after |
| WithdrawalPaths.SelfFinancing | src/rqcoresrv/src/webapps/withdrawal_simulator/withdrawal_simulator.ts:204-218 | on every path and day invested plus withdrawn value is all deposits plus the price gains on the shares held, the initial deposit counting as bought at price 1 |
| WithdrawalPaths.HoldingAdvantage | src/rqcoresrv/src/webapps/withdrawal_simulator/withdrawal_simulator.ts:204-244 | buy and hold is ahead by exactly the price changes on the shares given up |
| WithdrawalLimits.NeverBeatsHoldingIff | src/rqcoresrv/src/webapps/withdrawal_simulator/withdrawal_simulator.ts:204-244 | invested plus withdrawn value is never more than buy and hold, at all prices that never fall, exactly if at most 200 percent are withdrawn at a time or no two withdrawals happen before the last day and after money was paid in |
| WithdrawalPaths.WithdrawingAgainstHolding | src/rqcoresrv/src/webapps/withdrawal_simulator/withdrawal_simulator.ts:204-244 | on one path, while withdrawing is not ahead in shares, it never beats holding on prices that never fall and never loses to it on prices that never rise |
| WithdrawalPaths.ConstantPricesTie | src/rqcoresrv/src/webapps/withdrawal_simulator/withdrawal_simulator.ts:204-244 | at constant prices withdrawing ties with holding, in whatever amounts |
| WithdrawalPaths.HoldingIsNotWithdrawing | src/rqcoresrv/src/webapps/withdrawal_simulator/withdrawal_simulator.ts:220-228 | buy and hold is the same simulation without withdrawals |
| WithdrawalPaths.ClosedForm | src/rqcoresrv/src/webapps/withdrawal_simulator/withdrawal_simulator.ts:209-213 | shares are initial deposit times kept part plus each deposit's shares times the part kept since |
| WithdrawalPaths.FinalShares | src/rqcoresrv/src/webapps/withdrawal_simulator/withdrawal_simulator.ts:196-213 | without additional deposits the final shares are the initial deposit times the kept part to the number of withdrawals, in closed form |
| WithdrawalPaths.SharesDominated | src/rqcoresrv/src/webapps/withdrawal_simulator/withdrawal_simulator.ts:204-228 | on every path the shares are between plus and minus those of buy and hold |
| Schedules.TotalDepositIsTheSum | src/rqcoresrv/src/webapps/withdrawal_simulator/withdrawal_simulator.ts:159 | the announced total deposit is the initial deposit plus all scheduled deposits, for every accepted input |
| Schedules.PeriodEndsCount | src/rqcoresrv/src/webapps/withdrawal_simulator/withdrawal_simulator.ts:188-202 | among the first n days, for every n, the scheduled days from a start month on are counted by two quotients |
| Schedules.DepositsCounted | src/rqcoresrv/src/webapps/withdrawal_simulator/withdrawal_simulator.ts:188-194 | the deposits of the first n days are the period ends times the deposit |
| Schedules.WithdrawalCount | src/rqcoresrv/src/webapps/withdrawal_simulator/withdrawal_simulator.ts:196-202 | the withdrawals of a whole simulation are max(0, 12 L / f - (s - 1) / f), in whole quotients |
| Schedules.NothingOnDayZero | src/rqcoresrv/src/webapps/withdrawal_simulator/withdrawal_simulator.ts:188-213 | nothing is scheduled on day 0, where the share loops have not begun |
| Schedules.AcceptedInputs | src/rqcoresrv/src/webapps/withdrawal_simulator/withdrawal_simulator.ts:104-149 | what the driver lets through to the simulation |
| Schedules.EveryAcceptedInput | src/rqcoresrv/src/webapps/withdrawal_simulator/withdrawal_simulator.ts:104-149 | conversely every acceptable input passes and reaches the simulation as it was typed |
| Schedules.AcceptedValues | src/rqcoresrv/src/webapps/withdrawal_simulator/withdrawal_simulator.ts:108-136 | amounts arrive as typed, whole numbers up to the caps; a zero frequency stands for 12 months, an empty deposit end for the whole length |
| Statistics.SortedIsTheOrderedPermutation | src/rqcoresrv/src/webapps/withdrawal_simulator/withdrawal_simulator.ts:22-24 | an array is the sorted argument exactly if it is an ordered permutation of it, whatever algorithm sorts |
| Statistics.AverageAndMedianMonotone | src/rqcoresrv/src/webapps/withdrawal_simulator/withdrawal_simulator.ts:13-29 | values that are at most others one by one have at most their average and at most their median |
| Statistics.MedianIsMiddle | src/rqcoresrv/src/webapps/withdrawal_simulator/withdrawal_simulator.ts:25-28 | twice the median is the sum of the two middle values of any ordered permutation, one value taken twice for an odd number |
| Statistics.AverageBalances | src/rqcoresrv/src/webapps/withdrawal_simulator/withdrawal_simulator.ts:14-18 | the average is the one value from which the deviations cancel out |
| Statistics.SumConcatenates | src/rqcoresrv/src/webapps/withdrawal_simulator/withdrawal_simulator.ts:14-16 | sums may be taken piece by piece |
| Statistics.SqAverage | src/rqcoresrv/src/webapps/withdrawal_simulator/withdrawal_simulator.ts:13-19 | the accumulating loop computes the average |
| Statistics.SqMedian | src/rqcoresrv/src/webapps/withdrawal_simulator/withdrawal_simulator.ts:21-29 | the argument is left sorted and half the sum of its two middle values returned |

## Left out

- HTTP, websockets, TLS, login, static files, console menus and configuration: wrappers over libraries.
- Downloading and decoding events, prices and bars, cookie and response files: events, prices and failures are arbitrary inputs.
- E-mails, the screener e-mail of the first run of a day and console output; of the user log only the lines that `place_orders` and `place_order` append are modelled, as data rather than text.
- Panics, restarts, poisoned mutexes and failing order submissions; each lock scope is one step and an abort takes effect at once.
- A clock that is set back: runs of the scheduler assume a non-decreasing clock, and the registry stays fixed with distinct tasks. A single `Turn` also covers a task registered twice.
- Exchange holidays, which the source leaves open.
- IEEE rounding, infinities and negative zero: money, prices and returns are exact reals.
- Gaussian returns, standard deviation, CAGR powers and the profit figures derived from the last day of the curves, and all display code; daily returns are arbitrary.
- Updating in place across simulations: each row of the simulator is filled as an array and then kept as a sequence, since the source never writes to it again.
- FastRunners.Run: covers both task types through a strategy parameter; the 20-second warm-up and the pauses between passes appear only as the clock readings of the passes. The start and stop of the quote stream are modelled in MarkValueCaches.
- Scheduler.RqTask.UpdateNextTriggerTime: both FastRunner tasks and the heartbeat are one class with a kind.
- MarkValueCaches.MarkValueCache.Init: the ticker universe is taken as the list that splitting, trimming and dropping empty entries gives.
- BrokersWatchers.BrokersWatcher.PlaceOrders: the console warning about stale marks is not modelled; the bars of a price subscription are an input per order.
- CellAddresses.ParseCellId: arithmetic beyond 64 bits and the subtraction from a zero column or row yield an error, as a checked build panics; the wrap-around of an unchecked build is not modelled.
- Statistics.SqMedian: sorts by insertion; SortedIsTheOrderedPermutation shows that any sorting algorithm leaves the same array.
- WithdrawalSimulations.WithdrawalSimulation: excludes a return of exactly -1, which makes a price zero and the deposits at it infinite, and a simulation of zero years, which computes with missing array elements; the comparisons with buy and hold take returns above -1, since a lower one gives a negative price.
