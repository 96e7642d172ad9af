/** One run of a FastRunner task: the run's mode, its download loop, and its single placement of orders
    (src/rqcoresrv/src/robotrader/fast_runner_task.rs and fast_runner.rs). */
module FastRunners {
  import opened LocalTime
  import opened Slots
  import opened Calendar
  import opened Orders

  /** A call of RoboTrader::place_orders. */
  datatype Placement = Placement(orders: seq<RqOrder>, isSimulation: bool)

  /** One pass of the download loop: the clock at the loop test, and the events downloaded. */
  datatype Pass = Pass(at: int, events: seq<TransactionEvent>)

  /** What a run sees: the UTC date at its start, the clock reading that decides its mode, the clock when its loop
      begins, and the passes it may make. */
  datatype RunInput = RunInput(today: Date, clock: int, loopStart: int, passes: seq<Pass>)

  // ---------- Live or simulated ----------

  /** chrono's num_seconds(): whole seconds, truncated toward zero. */
  function NumSeconds(duration: int): int {
    if duration >= 0 then duration / SECOND else -((-duration) / SECOND)
  }

  function SecondsToNoon(z: Zone, t: int): int
    requires EarlyChanges(z)
  {
    InstantOfReads(z, LocalDate(z, t), 12 * HOUR);
    var noon := FromLocalEarliest(z, LocalDate(z, t) * DAY + 12 * HOUR).value;
    var s := NumSeconds(t - noon);
    if s < 0 then -s else s
  }

  predicate CloseToNoon(z: Zone, t: int)
    requires EarlyChanges(z)
  {
    SecondsToNoon(z, t) < 90
  }

  /** A run is in live mode exactly if its clock is less than 90 seconds from noon of its own local date. */
  lemma LiveWindow(z: Zone, t: int)
    requires EarlyChanges(z)
    ensures var noon := InstantOf(z, LocalDate(z, t), 12 * HOUR);
      CloseToNoon(z, t) <==> noon - 90 * SECOND < t < noon + 90 * SECOND
  {
    InstantOfReads(z, LocalDate(z, t), 12 * HOUR);
  }

  // ---------- The run as a function of what it sees ----------

  function MaxEvents(strategy: Strategy): nat {
    if strategy == Pqp then 14 else 2
  }

  /** The downloaded events are traded if there are some, but not suspiciously many. */
  predicate Tradable(strategy: Strategy, events: seq<TransactionEvent>) {
    0 < |events| <= MaxEvents(strategy)
  }

  function OrdersFor(strategy: Strategy, budget: Budget, events: seq<TransactionEvent>): seq<RqOrder> {
    match strategy
    case Pqp => BuildRqOrders(Allocated(events, budget.pqpBuy, budget.pqpSell))
    case Ap => BuildRqOrders(Allocated(events, budget.apBuy, 0.0))
  }

  function LoopLength(isSimulation: bool): int {
    if isSimulation then 30 * SECOND else 4 * MINUTE + 30 * SECOND
  }

  function LoopPlacements(
      strategy: Strategy, isForced: bool, isSimulation: bool, budget: Budget, deadline: int, passes: seq<Pass>)
    : seq<Placement>
  {
    if passes == [] || deadline <= passes[0].at then []
    else if Tradable(strategy, passes[0].events) then
      [Placement(OrdersFor(strategy, budget, passes[0].events), isSimulation)]
    else if isForced then []
    else LoopPlacements(strategy, isForced, isSimulation, budget, deadline, passes[1..])
  }

  predicate RunsToday(strategy: Strategy, today: Date) {
    if strategy == Pqp then PqpRunsToday(today) else ApRunsToday(today)
  }

  predicate IsSimulation(z: Zone, isForced: bool, clock: int)
    requires EarlyChanges(z)
  {
    isForced || !CloseToNoon(z, clock)
  }

  /** All calls of place_orders that a run makes. */
  function RunPlacements(z: Zone, strategy: Strategy, isForced: bool, input: RunInput): seq<Placement>
    requires EarlyChanges(z)
  {
    if !isForced && !RunsToday(strategy, input.today) then []
    else
      var isSimulation := IsSimulation(z, isForced, input.clock);
      LoopPlacements(
        strategy, isForced, isSimulation, DayBudget(input.today), input.loopStart + LoopLength(isSimulation), input.passes)
  }

  function StrategyBudget(strategy: Strategy, budget: Budget): real {
    if strategy == Pqp then budget.pqpBuy + budget.pqpSell else budget.apBuy
  }

  /** The run days: Mondays for PQP, the first weekdays from the 1st and from the 15th of the month for AP. */
  ghost predicate IsRunDay(strategy: Strategy, today: Date) {
    match strategy
    case Pqp => DaysFromMonday(today) == 0
    case Ap => IsFirstWeekdayFrom(today, 1) || IsFirstWeekdayFrom(today, 15)
  }

  /** A strategy runs exactly on its run days, which are exactly the days on which it has a budget. */
  lemma {:induction false} RunsTodayIff(strategy: Strategy, today: Date)
    requires ValidDate(today)
    ensures RunsToday(strategy, today) <==> IsRunDay(strategy, today)
    ensures RunsToday(strategy, today) <==> 0.0 < StrategyBudget(strategy, DayBudget(today))
  {
    match strategy {
      case Pqp => PqpRunsOnMondays(today);
      case Ap => ApRunsOnFirstWeekdays(today);
    }
    BudgetFollowsRuns(strategy, PqpRunsToday(today), ApRunsToday(today));
  }

  lemma BudgetFollowsRuns(strategy: Strategy, pqpRuns: bool, apRuns: bool)
    ensures 0.0 < StrategyBudget(strategy, BudgetFor(pqpRuns, apRuns)) <==> match strategy case Pqp => pqpRuns case Ap => apRuns
  {
  }

  /** On any other day an unforced run does nothing. */
  lemma {:induction false} NothingOutsideRunDays(z: Zone, strategy: Strategy, input: RunInput)
    requires EarlyChanges(z) && ValidDate(input.today) && !IsRunDay(strategy, input.today)
    ensures RunPlacements(z, strategy, false, input) == []
  {
    RunsTodayIff(strategy, input.today);
  }

  /** PQP buys and sells from its two budgets, AP buys from its own and sells for nothing; a side without events orders
      nothing. */
  lemma OrdersBySide(strategy: Strategy, budget: Budget, events: seq<TransactionEvent>)
    ensures SideValue(OrdersFor(strategy, budget, events), Buy) ==
      if CountOf(events, Buy) == 0 then 0.0 else match strategy case Pqp => budget.pqpBuy case Ap => budget.apBuy
    ensures SideValue(OrdersFor(strategy, budget, events), Sell) ==
      if CountOf(events, Sell) == 0 then 0.0 else match strategy case Pqp => budget.pqpSell case Ap => 0.0
  {
    var (buyPv, sellPv) := if strategy == Pqp then (budget.pqpBuy, budget.pqpSell) else (budget.apBuy, 0.0);
    AllocationConservesBudget(events, buyPv, sellPv, Buy);
    AllocationConservesBudget(events, buyPv, sellPv, Sell);
  }

  /** Each order is for the security and the side of the downloaded event in its place. */
  lemma OrdersForName(strategy: Strategy, budget: Budget, events: seq<TransactionEvent>, i: nat)
    requires i < |events|
    ensures |OrdersFor(strategy, budget, events)| == |events|
    ensures var order := OrdersFor(strategy, budget, events)[i];
      && order.ticker == events[i].ticker && order.companyName == events[i].companyName
      && order.orderType == events[i].orderType && order.knownLastPrice == events[i].price
  {
    match strategy
    case Pqp => OrdersNameEvents(events, budget.pqpBuy, budget.pqpSell, i);
    case Ap => OrdersNameEvents(events, budget.apBuy, 0.0, i);
  }

  lemma OrdersWithinBudget(strategy: Strategy, budget: Budget, events: seq<TransactionEvent>)
    requires 0.0 <= budget.pqpBuy && 0.0 <= budget.pqpSell && 0.0 <= budget.apBuy
    ensures OrderedValue(OrdersFor(strategy, budget, events)) <= StrategyBudget(strategy, budget)
    ensures CountOf(events, Buy) > 0 && (strategy == Ap || CountOf(events, Sell) > 0) ==>
      OrderedValue(OrdersFor(strategy, budget, events)) == StrategyBudget(strategy, budget)
  {
    var (buyPv, sellPv) := if strategy == Pqp then (budget.pqpBuy, budget.pqpSell) else (budget.apBuy, 0.0);
    AllocationConservesBudget(events, buyPv, sellPv, Buy);
    AllocationConservesBudget(events, buyPv, sellPv, Sell);
  }

  /** The orders come from a tradable download and the given budget. */
  ghost predicate AreOrdersOf(strategy: Strategy, budget: Budget, orders: seq<RqOrder>) {
    exists events :: Tradable(strategy, events) && orders == OrdersFor(strategy, budget, events)
  }

  /** The orders come from the download of pass k, which was begun before the deadline. */
  ghost predicate PlacedFrom(
      strategy: Strategy, budget: Budget, deadline: int, passes: seq<Pass>, orders: seq<RqOrder>, k: int) {
    && 0 <= k < |passes| && passes[k].at < deadline
    && Tradable(strategy, passes[k].events) && orders == OrdersFor(strategy, budget, passes[k].events)
  }

  /** Whatever is downloaded, a run places orders at most once, within its strategy's budget; and only a run that was
      not forced, on a run day, with a clock close to noon, places orders that are not simulated. */
  lemma {:induction false} RunPlacesOnce(z: Zone, strategy: Strategy, isForced: bool, input: RunInput)
    requires EarlyChanges(z)
    ensures var placed := RunPlacements(z, strategy, isForced, input);
      && |placed| <= 1
      && forall p :: p in placed ==>
        && 0 < |p.orders| <= MaxEvents(strategy)
        && OrderedValue(p.orders) <= StrategyBudget(strategy, DayBudget(input.today))
        && (!p.isSimulation <==> !isForced && CloseToNoon(z, input.clock))
        && (!p.isSimulation ==> RunsToday(strategy, input.today))
  {
    var isSimulation := IsSimulation(z, isForced, input.clock);
    LoopPlacesOnce(
      strategy, isForced, isSimulation, DayBudget(input.today), input.loopStart + LoopLength(isSimulation), input.passes);
  }

  lemma {:induction false} LoopPlacesOnce(
      strategy: Strategy, isForced: bool, isSimulation: bool, budget: Budget, deadline: int, passes: seq<Pass>)
    requires 0.0 <= budget.pqpBuy && 0.0 <= budget.pqpSell && 0.0 <= budget.apBuy
    ensures var placed := LoopPlacements(strategy, isForced, isSimulation, budget, deadline, passes);
      && |placed| <= 1
      && forall p :: p in placed ==>
        && 0 < |p.orders| <= MaxEvents(strategy)
        && p.isSimulation == isSimulation
        && OrderedValue(p.orders) <= StrategyBudget(strategy, budget)
  {
    if passes == [] || deadline <= passes[0].at {
    } else if Tradable(strategy, passes[0].events) {
      OrdersWithinBudget(strategy, budget, passes[0].events);
    } else if !isForced {
      LoopPlacesOnce(strategy, isForced, isSimulation, budget, deadline, passes[1..]);
    }
  }

  /** A run places what it has downloaded itself, in a pass begun less than 30 seconds after the loop began in a
      simulation and less than four and a half minutes after it in live mode; a forced run only in its first pass. */
  lemma {:induction false} RunPlacesFrom(z: Zone, strategy: Strategy, isForced: bool, input: RunInput, p: Placement) returns (k: nat)
    requires EarlyChanges(z) && p in RunPlacements(z, strategy, isForced, input)
    ensures var deadline := input.loopStart + (if p.isSimulation then 30 * SECOND else 270 * SECOND);
      PlacedFrom(strategy, DayBudget(input.today), deadline, input.passes, p.orders, k)
    ensures isForced ==> k == 0 && p.isSimulation
  {
    var isSimulation := IsSimulation(z, isForced, input.clock);
    k := LoopPlacesFrom(
      strategy, isForced, isSimulation, DayBudget(input.today), input.loopStart + LoopLength(isSimulation), input.passes, p);
  }

  lemma {:induction false} LoopPlacesFrom(
      strategy: Strategy, isForced: bool, isSimulation: bool, budget: Budget, deadline: int, passes: seq<Pass>, p: Placement)
    returns (k: nat)
    requires p in LoopPlacements(strategy, isForced, isSimulation, budget, deadline, passes)
    ensures PlacedFrom(strategy, budget, deadline, passes, p.orders, k) && p.isSimulation == isSimulation
    ensures isForced ==> k == 0
  {
    if Tradable(strategy, passes[0].events) {
      k := 0;
    } else {
      var later := LoopPlacesFrom(strategy, isForced, isSimulation, budget, deadline, passes[1..], p);
      k := later + 1;
    }
  }

  /** A forced run makes one pass: what it would download later does not matter. */
  lemma {:induction false} ForcedRunMakesOnePass(z: Zone, strategy: Strategy, input: RunInput)
    requires EarlyChanges(z) && input.passes != []
    ensures RunPlacements(z, strategy, true, input) ==
      RunPlacements(z, strategy, true, input.(passes := input.passes[..1]))
  {
  }

  /** An unforced run trades on the first tradable download of a pass begun before the deadline, and on nothing else. */
  lemma {:induction false} LoopTradesFirstTradable(
      strategy: Strategy, isSimulation: bool, budget: Budget, deadline: int, passes: seq<Pass>, k: nat)
    requires FirstTradable(strategy, deadline, passes, k)
    ensures LoopPlacements(strategy, false, isSimulation, budget, deadline, passes) ==
      [Placement(OrdersFor(strategy, budget, passes[k].events), isSimulation)]
  {
    if k > 0 {
      LoopTradesFirstTradable(strategy, isSimulation, budget, deadline, passes[1..], k - 1);
    }
  }

  /** Some pass begun before the deadline downloads something tradable. */
  ghost predicate GetsTradable(strategy: Strategy, deadline: int, passes: seq<Pass>) {
    exists k :: FirstTradable(strategy, deadline, passes, k)
  }

  ghost predicate FirstTradable(strategy: Strategy, deadline: int, passes: seq<Pass>, k: int) {
    && 0 <= k < |passes| && IsPlausible(strategy, passes[k].events)
    && (forall j :: 0 <= j <= k ==> passes[j].at < deadline)
    && forall j :: 0 <= j < k ==> !IsPlausible(strategy, passes[j].events)
  }

  /** At least one event, and at most 14 of PQP or 2 of AP. */
  ghost predicate IsPlausible(strategy: Strategy, events: seq<TransactionEvent>) {
    match strategy
    case Pqp => 1 <= |events| <= 14
    case Ap => 1 <= |events| <= 2
  }

  /** An unforced run places orders exactly if it gets a tradable download in time. */
  lemma {:induction false} LoopPlacesIff(
      strategy: Strategy, isSimulation: bool, budget: Budget, deadline: int, passes: seq<Pass>)
    ensures LoopPlacements(strategy, false, isSimulation, budget, deadline, passes) != [] <==>
      GetsTradable(strategy, deadline, passes)
  {
    if passes != [] && passes[0].at < deadline {
      var rest := passes[1..];
      if Tradable(strategy, passes[0].events) {
        assert FirstTradable(strategy, deadline, passes, 0);
      } else {
        LoopPlacesIff(strategy, isSimulation, budget, deadline, rest);
        forall k ensures FirstTradable(strategy, deadline, passes, k + 1) <==> FirstTradable(strategy, deadline, rest, k) {
          LaterTradable(strategy, deadline, passes, k);
        }
        if k :| FirstTradable(strategy, deadline, passes, k) { assert FirstTradable(strategy, deadline, rest, k - 1); }
      }
    }
  }

  lemma LaterTradable(strategy: Strategy, deadline: int, passes: seq<Pass>, k: int)
    requires passes != [] && passes[0].at < deadline && !IsPlausible(strategy, passes[0].events)
    ensures FirstTradable(strategy, deadline, passes, k + 1) <==> FirstTradable(strategy, deadline, passes[1..], k)
  {
    var rest := passes[1..];
    assert forall j :: 0 <= j < |rest| ==> rest[j] == passes[j + 1];
    if FirstTradable(strategy, deadline, passes, k + 1) {
      assert rest[k] == passes[k + 1];
    }
    if FirstTradable(strategy, deadline, rest, k) {
      forall j | 0 <= j <= k + 1 ensures passes[j].at < deadline { if j > 0 { assert rest[j - 1].at < deadline; } }
      forall j | 0 <= j < k + 1 ensures !IsPlausible(strategy, passes[j].events) {
        if j > 0 { assert !IsPlausible(strategy, rest[j - 1].events); }
      }
    }
  }

  // ---------- The runner object ----------

  class FastRunner {
    var isSimulation: bool
    var hasTradingEverStarted: bool
    var pqpTargetDate: Date
    var pqpIsRunToday: bool
    var apTargetDate: Date
    var apIsRunToday: bool
    var budget: Budget
    var placed: seq<Placement> // the calls of RoboTrader::place_orders so far

    constructor (today: Date)
      ensures isSimulation && !hasTradingEverStarted && placed == []
      ensures pqpTargetDate == PqpRebalanceDate(today) && apTargetDate == ApRebalanceDate(today)
      ensures pqpIsRunToday == PqpRunsToday(today) && apIsRunToday == ApRunsToday(today)
      ensures budget == DayBudget(today)
    {
      isSimulation, hasTradingEverStarted, placed := true, false, [];
      pqpTargetDate, apTargetDate := today, today;
      pqpIsRunToday, apIsRunToday := false, false;
      budget := Budget(50000.0, 30000.0, 50000.0);
      new;
      CalculateDatesAndPv(today);
    }

    /** pqp_ap_calculate_dates_and_pv */
    method CalculateDatesAndPv(today: Date)
      modifies this
      ensures pqpTargetDate == PqpRebalanceDate(today) && apTargetDate == ApRebalanceDate(today)
      ensures pqpIsRunToday == PqpRunsToday(today) && apIsRunToday == ApRunsToday(today)
      ensures budget == DayBudget(today)
      ensures unchanged(this`isSimulation, this`hasTradingEverStarted, this`placed)
    {
      pqpTargetDate := PqpRebalanceDate(today);
      pqpIsRunToday := today == pqpTargetDate;
      apTargetDate := ApRebalanceDate(today);
      apIsRunToday := today == apTargetDate;
      budget := BudgetFor(pqpIsRunToday, apIsRunToday);
    }

    method CountOrderTypes(events: array<TransactionEvent>) returns (buys: nat, sells: nat)
      ensures buys == CountOf(events[..], Buy) && sells == CountOf(events[..], Sell)
    {
      buys, sells := 0, 0;
      for i := 0 to events.Length
        invariant buys == CountOf(events[..i], Buy) && sells == CountOf(events[..i], Sell)
      {
        assert events[..i + 1][..i] == events[..i];
        if events[i].orderType == Buy { buys := buys + 1; } else { sells := sells + 1; }
      }
      assert events[..events.Length] == events[..];
    }

    /** determine_position_market_values_*: set the market value of every event in place. */
    method DeterminePositionMarketValues(events: array<TransactionEvent>, buyPv: real, sellPv: real)
      modifies events
      ensures events[..] == Allocated(old(events[..]), buyPv, sellPv)
    {
      var buys, sells := CountOrderTypes(events);
      var buyPart, sellPart := EqualPart(buyPv, buys), EqualPart(sellPv, sells);
      for i := 0 to events.Length
        invariant forall j :: 0 <= j < i ==> events[j] == Allocated(old(events[..]), buyPv, sellPv)[j]
        invariant forall j :: i <= j < events.Length ==> events[j] == old(events[j])
      {
        events[i] := events[i].(posMarketValue := if events[i].orderType == Buy then buyPart else sellPart);
      }
    }

    /** fastrunning_loop_pqp_impl and fastrunning_loop_ap_impl, for the given download. */
    method LoopImpl(strategy: Strategy, downloaded: seq<TransactionEvent>)
      modifies this
      ensures unchanged(this`isSimulation, this`budget, this`pqpIsRunToday, this`apIsRunToday)
      ensures hasTradingEverStarted == (old(hasTradingEverStarted) || Tradable(strategy, downloaded))
      ensures placed == old(placed) + (
        if !old(hasTradingEverStarted) && Tradable(strategy, downloaded)
        then [Placement(OrdersFor(strategy, budget, downloaded), isSimulation)] else [])
    {
      if |downloaded| == 0 || |downloaded| > MaxEvents(strategy) { return; }
      var events := new TransactionEvent[|downloaded|](i requires 0 <= i < |downloaded| => downloaded[i]);
      assert events[..] == downloaded;
      if strategy == Pqp {
        DeterminePositionMarketValues(events, budget.pqpBuy, budget.pqpSell);
      } else {
        DeterminePositionMarketValues(events, budget.apBuy, 0.0);
      }
      var orders := BuildRqOrders(events[..]);
      if hasTradingEverStarted { return; }
      hasTradingEverStarted := true;
      placed := placed + [Placement(orders, isSimulation)];
    }
  }

  /** run() of FastRunnerPqpTask and FastRunnerApTask. */
  method Run(z: Zone, strategy: Strategy, isForced: bool, input: RunInput) returns (runner: FastRunner)
    requires EarlyChanges(z)
    ensures fresh(runner)
    ensures runner.placed == RunPlacements(z, strategy, isForced, input)
    ensures runner.isSimulation == IsSimulation(z, isForced, input.clock)
    ensures !isForced && ValidDate(input.today) && !IsRunDay(strategy, input.today) ==> runner.placed == []
  {
    if ValidDate(input.today) { RunsTodayIff(strategy, input.today); }
    runner := new FastRunner(input.today);
    runner.isSimulation := !CloseToNoon(z, input.clock);
    if isForced {
      if strategy == Pqp { runner.pqpIsRunToday := true; } else { runner.apIsRunToday := true; }
      runner.isSimulation := true;
    }
    if !(if strategy == Pqp then runner.pqpIsRunToday else runner.apIsRunToday) { return; }

    var deadline := input.loopStart + LoopLength(runner.isSimulation);
    var i := 0;
    ghost var all := LoopPlacements(strategy, isForced, runner.isSimulation, runner.budget, deadline, input.passes);
    while i < |input.passes| && input.passes[i].at < deadline
      invariant 0 <= i <= |input.passes|
      invariant runner.isSimulation == IsSimulation(z, isForced, input.clock) && runner.budget == DayBudget(input.today)
      invariant !runner.hasTradingEverStarted && runner.placed == []
      invariant all == LoopPlacements(strategy, isForced, runner.isSimulation, runner.budget, deadline, input.passes[i..])
    {
      runner.LoopImpl(strategy, input.passes[i].events);
      if isForced { break; }
      if runner.hasTradingEverStarted { break; }
      assert input.passes[i..][1..] == input.passes[i + 1..];
      i := i + 1;
    }
  }
}
