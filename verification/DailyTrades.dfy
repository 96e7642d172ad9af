/** From the trading day to the broker: what reaches the broker live on one Eastern date is bounded by the date's
    budgets, through the scheduler, the noon window, the allocation, the two passes and the rounding. */
module DailyTrades {
  import opened LocalTime
  import opened Slots
  import opened Scheduler
  import opened SchedulerRuns
  import opened Calendar
  import opened Orders
  import opened FastRunners
  import opened TradingDays
  import opened MarkValueCaches
  import opened BrokersWatchers
  import opened PlacementBudgets

  /** The prices one call of place_orders meets: the mark-value cache, and the bars for each order. */
  datatype Market = Market(marks: map<string, Mark>, bars: seq<seq<BarResult>>)

  ghost predicate HasPositivePrices(market: Market, orders: seq<RqOrder>) {
    |market.bars| == |orders| && PositivePrices(orders, market.marks, market.bars)
  }

  /** What the broker receives from one placement. */
  ghost function Received(p: Placement, market: Market): seq<Submission>
    requires |market.bars| == |p.orders|
  {
    Submissions(Attempts(p.orders, market.marks, market.bars), p.isSimulation)
  }

  /** What the broker receives from several placements, each at its own prices. */
  ghost function AllReceived(placed: seq<Placement>, markets: seq<Market>): seq<Submission>
    requires |markets| == |placed|
    requires forall i :: 0 <= i < |placed| ==> HasPositivePrices(markets[i], placed[i].orders)
  {
    if placed == [] then []
    else
      assert HasPositivePrices(markets[0], placed[0].orders);
      Received(placed[0], markets[0]) + AllReceived(placed[1..], markets[1..])
  }

  function BuyBudget(strategy: Strategy, budget: Budget): real {
    if strategy == Pqp then budget.pqpBuy else budget.apBuy
  }

  lemma OrdersAtLimits(strategy: Strategy, budget: Budget, p: Placement, market: Market)
    requires !p.isSimulation && AreOrdersOf(strategy, budget, p.orders) && HasPositivePrices(market, p.orders)
    requires 0.0 <= budget.pqpBuy && 0.0 <= budget.pqpSell && 0.0 <= budget.apBuy
    ensures AtLimits(Received(p, market), Buy) <=
      1.021 * BuyBudget(strategy, budget) + 0.005 * SharesIn(Received(p, market), Buy)
  {
    var events :| Tradable(strategy, events) && p.orders == OrdersFor(strategy, budget, events);
    match strategy
    case Pqp => PlacedWithinBudget(events, budget.pqpBuy, budget.pqpSell, market.marks, market.bars, Buy);
    case Ap => PlacedWithinBudget(events, budget.apBuy, 0.0, market.marks, market.bars, Buy);
  }

  lemma NonNegativeBudget(pqpRuns: bool, apRuns: bool)
    ensures var b := BudgetFor(pqpRuns, apRuns); 0.0 <= b.pqpBuy && 0.0 <= b.pqpSell && 0.0 <= b.apBuy
  {
  }

  /** The buy orders that one strategy's live runs of a date send to the broker are worth, at their limits, at most
      1.021 times the strategy's buy budget of that date plus half a cent a share. */
  lemma {:induction false} StrategyBuysAtLimits(
      h: History, delta: int, epsilon: int, k: nat, today: Date, live: seq<Placement>, markets: seq<Market>)
    requires h.Prompt(k, delta, epsilon, 28 * MINUTE) && Eastern(h.run.zone)
    requires h.run.kinds[k].FastRun? && ValidDate(today)
    requires live == h.LiveOn(k, DayNumber(today) - EPOCH_DAY) && |markets| == |live|
    requires forall i :: 0 <= i < |live| ==> HasPositivePrices(markets[i], live[i].orders)
    ensures AtLimits(AllReceived(live, markets), Buy) <=
      1.021 * BuyBudget(h.run.kinds[k].strategy, DayBudget(today)) + 0.005 * SharesIn(AllReceived(live, markets), Buy)
  {
    AtMostOneLivePlacementADay(h, delta, epsilon, k, DayNumber(today) - EPOCH_DAY);
    LiveOrdersOfBudget(h, delta, epsilon, k, today, live);
    NonNegativeBudget(PqpRunsToday(today), ApRunsToday(today));
    OneReceived(h.run.kinds[k].strategy, DayBudget(today), live, markets);
  }

  lemma OneReceived(strategy: Strategy, budget: Budget, live: seq<Placement>, markets: seq<Market>)
    requires |live| <= 1 && |markets| == |live|
    requires 0.0 <= budget.pqpBuy && 0.0 <= budget.pqpSell && 0.0 <= budget.apBuy
    requires forall i :: 0 <= i < |live| ==> HasPositivePrices(markets[i], live[i].orders)
    requires forall p :: p in live ==> !p.isSimulation && AreOrdersOf(strategy, budget, p.orders)
    ensures AtLimits(AllReceived(live, markets), Buy) <=
      1.021 * BuyBudget(strategy, budget) + 0.005 * SharesIn(AllReceived(live, markets), Buy)
  {
    if live != [] {
      OrdersAtLimits(strategy, budget, live[0], markets[0]);
      assert AllReceived(live, markets) == Received(live[0], markets[0]);
    }
  }

  /** What the broker receives live on a date names the security and the side of an event that a live run of that date
      downloaded; its limit and size come from the cached price, else from the event's own price, else from the first
      bar. */
  lemma {:induction false} LiveSubmissionsNameDownload(
      h: History, delta: int, epsilon: int, k: nat, date: int, p: Placement, market: Market, s: Submission)
    returns (i: nat, pass: nat, m: nat, price: Price)
    requires h.Prompt(k, delta, epsilon, 28 * MINUTE) && h.run.kinds[k].FastRun? && p in h.LiveOn(k, date)
    requires |market.bars| == |p.orders| && s in Received(p, market)
    ensures i < |h.run.turns| && h.RunIn(i, k, date, true) && pass < |h.inputs[i][k].passes|
    ensures m < |h.inputs[i][k].passes[pass].events| && m < |market.bars|
    ensures var event := h.inputs[i][k].passes[pass].events[m];
      && s.ticker == event.ticker && s.orderType == event.orderType
      && price.Num? && s.limit == LimitPrice(s.orderType, price.value)
      && m < |p.orders| && s.shares == NumShares(p.orders[m].posMarketValue, price.value)
      && (s.ticker in market.marks && market.marks[s.ticker].value.Num? ==> price == market.marks[s.ticker].value)
      && (s.ticker !in market.marks || market.marks[s.ticker].value.NaN? ==>
        IsFallbackPrice(price, event.price, market.bars[m]))
  {
    i, pass := LiveOrdersNameDownload(h, delta, epsilon, k, date, p);
    var strategy, input := h.run.kinds[k].strategy, h.inputs[i][k];
    m, price := ReceivedNames(strategy, DayBudget(input.today), input.passes[pass].events, p, market, s);
  }

  lemma ReceivedNames(
      strategy: Strategy, budget: Budget, events: seq<TransactionEvent>, p: Placement, market: Market, s: Submission)
    returns (m: nat, price: Price)
    requires p.orders == OrdersFor(strategy, budget, events)
    requires |market.bars| == |p.orders| && s in Received(p, market)
    ensures m < |events| && m < |market.bars|
    ensures s.ticker == events[m].ticker && s.orderType == events[m].orderType
    ensures price.Num? && s.limit == LimitPrice(s.orderType, price.value)
    ensures s.shares == NumShares(p.orders[m].posMarketValue, price.value)
    ensures s.ticker in market.marks && market.marks[s.ticker].value.Num? ==> price == market.marks[s.ticker].value
    ensures s.ticker !in market.marks || market.marks[s.ticker].value.NaN? ==>
      IsFallbackPrice(price, events[m].price, market.bars[m])
  {
    match strategy
    case Pqp =>
      m, price := SubmissionsNameEvents(events, budget.pqpBuy, budget.pqpSell, market.marks, market.bars, p.isSimulation, s);
    case Ap =>
      m, price := SubmissionsNameEvents(events, budget.apBuy, 0.0, market.marks, market.bars, p.isSimulation, s);
  }

  /** Both strategies together, on any Eastern date: at their limits the live buy orders are worth at most 1.021 times
      the buy budgets of the date, 140,000 or 200,000 or nothing, plus half a cent a share. */
  lemma {:induction false} DailyBuysAtLimits(
      h: History, delta: int, epsilon: int, pqp: nat, ap: nat, today: Date, pqpLive: seq<Placement>,
      pqpMarkets: seq<Market>, apLive: seq<Placement>, apMarkets: seq<Market>)
    requires h.Prompt(pqp, delta, epsilon, 28 * MINUTE) && h.Prompt(ap, delta, epsilon, 28 * MINUTE)
    requires Eastern(h.run.zone) && ValidDate(today)
    requires h.run.kinds[pqp] == FastRun(Pqp) && h.run.kinds[ap] == FastRun(Ap)
    requires pqpLive == h.LiveOn(pqp, DayNumber(today) - EPOCH_DAY) && |pqpMarkets| == |pqpLive|
    requires apLive == h.LiveOn(ap, DayNumber(today) - EPOCH_DAY) && |apMarkets| == |apLive|
    requires forall i :: 0 <= i < |pqpLive| ==> HasPositivePrices(pqpMarkets[i], pqpLive[i].orders)
    requires forall i :: 0 <= i < |apLive| ==> HasPositivePrices(apMarkets[i], apLive[i].orders)
    ensures var received := AllReceived(pqpLive, pqpMarkets) + AllReceived(apLive, apMarkets);
      AtLimits(received, Buy) <= 0.005 * SharesIn(received, Buy) + 1.021 *
        (if PqpRunsToday(today) then 140000.0 else if ApRunsToday(today) then 200000.0 else 0.0)
  {
    var first, second := AllReceived(pqpLive, pqpMarkets), AllReceived(apLive, apMarkets);
    StrategyBuysAtLimits(h, delta, epsilon, pqp, today, pqpLive, pqpMarkets);
    StrategyBuysAtLimits(h, delta, epsilon, ap, today, apLive, apMarkets);
    AtLimitsAdds(first, second, Buy);
    SharesInAdds(first, second, Buy);
    BuyBudgetsAddUp(DayBudget(today), PqpRunsToday(today), ApRunsToday(today));
  }

  lemma BuyBudgetsAddUp(budget: Budget, pqpRuns: bool, apRuns: bool)
    requires budget == BudgetFor(pqpRuns, apRuns)
    ensures BuyBudget(Pqp, budget) + BuyBudget(Ap, budget) == if pqpRuns then 140000.0 else if apRuns then 200000.0 else 0.0
  {
  }
}
