/** What rounding to whole shares and to cents does to a budget: fast_runner.rs splits it, brokers_watcher.rs spends it. */
module PlacementBudgets {
  import opened RealArithmetic
  import opened Orders
  import opened MarkValueCaches
  import opened BrokersWatchers

  /** Sums over the priced attempts of one side: allotted value, value of the whole shares at the price, value of the
      shares at the limit, shares, and prices. */
  datatype Totals = Totals(count: nat, allotted: real, bought: real, atLimit: real, shares: real, prices: real)

  const NOTHING := Totals(0, 0.0, 0.0, 0.0, 0.0, 0.0)

  /** What one attempt contributes. */
  function EntryOf(a: Attempt, side: OrderType): Totals {
    if a.order.orderType != side || a.price.NaN? then NOTHING
    else
      PricedEntry(side, a.order.posMarketValue, a.price.value, a.Shares())
  }

  function PricedEntry(side: OrderType, value: real, price: real, shares: int): Totals {
    Totals(1, value, shares as real * price, shares as real * LimitPrice(side, price), shares as real, price)
  }

  function Entries(attempts: seq<Attempt>, side: OrderType): (r: seq<Totals>)
    ensures |r| == |attempts|
  {
    seq(|attempts|, i requires 0 <= i < |attempts| => EntryOf(attempts[i], side))
  }

  function Sum(entries: seq<Totals>): Totals {
    if entries == [] then NOTHING
    else
      var t, e := Sum(entries[..|entries| - 1]), entries[|entries| - 1];
      Totals(t.count + e.count, t.allotted + e.allotted, t.bought + e.bought, t.atLimit + e.atLimit, t.shares + e.shares,
        t.prices + e.prices)
  }

  function AddUp(attempts: seq<Attempt>, side: OrderType): Totals {
    Sum(Entries(attempts, side))
  }

  /** What submitted orders of one side are worth at their limits. */
  function AtLimits(submitted: seq<Submission>, side: OrderType): real {
    if submitted == [] then 0.0
    else
      var last := submitted[|submitted| - 1];
      AtLimits(submitted[..|submitted| - 1], side) + (if last.orderType == side then last.shares as real * last.limit else 0.0)
  }

  /** The shares in submitted orders of one side. */
  function SharesIn(submitted: seq<Submission>, side: OrderType): real {
    if submitted == [] then 0.0
    else
      var last := submitted[|submitted| - 1];
      SharesIn(submitted[..|submitted| - 1], side) + (if last.orderType == side then last.shares as real else 0.0)
  }

  ghost predicate Sound(a: Attempt) {
    0.0 <= a.order.posMarketValue && (a.price.Num? ==> 0.0 < a.price.value)
  }

  // ---------- One order ----------

  /** The whole shares fit the allotted value, and one more would not, unless the count is at the i32 bound. */
  lemma SharesFit(value: real, price: real)
    requires 0.0 <= value && 0.0 < price
    ensures 0 <= NumShares(value, price) <= I32_MAX
    ensures NumShares(value, price) as real * price <= value
    ensures NumShares(value, price) < I32_MAX ==> value < NumShares(value, price) as real * price + price
  {
    var q, n := value / price, NumShares(value, price);
    assert q * price == value;
    NumSharesFloors(value, price);
    FloorFits(value, q, price, q.Floor, n);
  }

  lemma NumSharesFloors(value: real, price: real)
    requires 0.0 <= value && 0.0 < price
    ensures var n, f := NumShares(value, price), (value / price).Floor;
      0 <= n <= f && n <= I32_MAX && (n < I32_MAX ==> n == f)
  {
    var q := value / price;
    assert q * price == value;
    if q < 0.0 { ProductStrictlyMonotone(q, 0.0, price); }
  }

  lemma FloorFits(value: real, q: real, price: real, f: int, n: int)
    requires 0.0 < price && value == q * price && f == q.Floor && n <= f
    ensures n as real * price <= value
    ensures n == f ==> value < n as real * price + price
  {
    ProductMonotone(n as real, q, price);
    if n == f { OneMoreExceeds(value, q, price, n as real); }
  }

  lemma OneMoreExceeds(value: real, q: real, price: real, m: real)
    requires 0.0 < price && value == q * price && q < m + 1.0
    ensures value < m * price + price
  {
    ProductStrictlyMonotone(q, m + 1.0, price);
  }

  /** A limit price is within half a cent of 2.1% beyond the price. */
  lemma LimitNearPrice(side: OrderType, price: real)
    ensures var exact := price * (if side == Buy then 1.021 else 0.979);
      exact - 0.005 <= LimitPrice(side, price) <= exact + 0.005
  {
  }

  /** So the shares of one order, at the buy limit or the sell limit. */
  lemma SharesAtLimit(side: OrderType, value: real, price: real, shares: real, bought: real)
    requires 0.0 <= value && 0.0 < price && shares == NumShares(value, price) as real && bought == shares * price
    ensures side == Buy ==> shares * LimitPrice(side, price) <= 1.021 * value + 0.005 * shares
    ensures side == Sell ==> 0.979 * bought - 0.005 * shares <= shares * LimitPrice(side, price)
  {
    SharesFit(value, price);
    LimitNearPrice(side, price);
    if side == Buy {
      BoughtAtMost(shares, LimitPrice(side, price), 1.021, price, bought);
      assert bought <= value;
    } else {
      SoldAtLeast(shares, LimitPrice(side, price), 0.979, price, bought);
    }
  }

  lemma BoughtAtMost(shares: real, limit: real, factor: real, price: real, bought: real)
    requires 0.0 <= shares && limit <= price * factor + 0.005 && bought == shares * price
    ensures shares * limit <= factor * bought + 0.005 * shares
  {
    ProductMonotone(limit, price * factor + 0.005, shares);
  }

  lemma SoldAtLeast(shares: real, limit: real, factor: real, price: real, bought: real)
    requires 0.0 <= shares && price * factor - 0.005 <= limit && bought == shares * price
    ensures factor * bought - 0.005 * shares <= shares * limit
  {
    ProductMonotone(price * factor - 0.005, limit, shares);
  }

  // ---------- All orders ----------

  /** What holds of one contribution and is kept by adding. */
  ghost predicate Bounded(t: Totals, side: OrderType) {
    && 0.0 <= t.shares
    && t.bought <= t.allotted
    && (side == Buy ==> t.atLimit <= 1.021 * t.allotted + 0.005 * t.shares)
    && (side == Sell ==> 0.979 * t.bought - 0.005 * t.shares <= t.atLimit)
  }

  ghost predicate Spent(t: Totals) {
    && t.allotted <= t.bought + t.prices
    && (0 < t.count ==> t.allotted < t.bought + t.prices)
  }

  lemma EntryBounded(a: Attempt, side: OrderType)
    requires Sound(a)
    ensures Bounded(EntryOf(a, side), side)
    ensures a.Shares() < I32_MAX ==> Spent(EntryOf(a, side))
  {
    if a.order.orderType == side && a.price.Num? {
      var value, price := a.order.posMarketValue, a.price.value;
      NumbersBounded(side, value, price, NumShares(value, price));
    }
  }

  lemma NumbersBounded(side: OrderType, value: real, price: real, n: int)
    requires 0.0 <= value && 0.0 < price && n == NumShares(value, price)
    ensures Bounded(PricedEntry(side, value, price, n), side)
    ensures n < I32_MAX ==> Spent(PricedEntry(side, value, price, n))
  {
    SharesFit(value, price);
    SharesAtLimit(side, value, price, n as real, n as real * price);
  }

  lemma {:induction false} SumBounded(entries: seq<Totals>, side: OrderType)
    requires forall i :: 0 <= i < |entries| ==> Bounded(entries[i], side)
    ensures Bounded(Sum(entries), side)
  {
    if entries != [] { SumBounded(entries[..|entries| - 1], side); }
  }

  lemma {:induction false} SumSpent(entries: seq<Totals>)
    requires forall i :: 0 <= i < |entries| ==> Spent(entries[i])
    ensures Spent(Sum(entries))
  {
    if entries != [] { SumSpent(entries[..|entries| - 1]); }
  }

  /** Whole shares never cost more than was allotted, at the limits hardly more than 2.1% above it. */
  lemma TotalsBounded(attempts: seq<Attempt>, side: OrderType)
    requires forall a :: a in attempts ==> Sound(a)
    ensures Bounded(AddUp(attempts, side), side)
  {
    var entries := Entries(attempts, side);
    forall i | 0 <= i < |attempts| ensures Bounded(entries[i], side) {
      EntryBounded(attempts[i], side);
    }
    SumBounded(entries, side);
  }

  /** The rounding to whole shares leaves less than one share's price per priced order unspent. */
  lemma ShortfallBounded(attempts: seq<Attempt>, side: OrderType)
    requires forall a :: a in attempts ==> Sound(a) && a.Shares() < I32_MAX
    ensures Spent(AddUp(attempts, side))
  {
    var entries := Entries(attempts, side);
    forall i | 0 <= i < |attempts| ensures Spent(entries[i]) {
      assert attempts[i] in attempts;
      EntryBounded(attempts[i], side);
    }
    SumSpent(entries);
  }

  lemma {:induction false} AtLimitsAdds(first: seq<Submission>, second: seq<Submission>, side: OrderType)
    ensures AtLimits(first + second, side) == AtLimits(first, side) + AtLimits(second, side)
  {
    if second == [] {
      assert first + second == first;
    } else {
      AtLimitsAdds(first, second[..|second| - 1], side);
      assert (first + second)[..|first + second| - 1] == first + second[..|second| - 1];
    }
  }

  lemma {:induction false} SharesInAdds(first: seq<Submission>, second: seq<Submission>, side: OrderType)
    ensures SharesIn(first + second, side) == SharesIn(first, side) + SharesIn(second, side)
  {
    if second == [] {
      assert first + second == first;
    } else {
      SharesInAdds(first, second[..|second| - 1], side);
      assert (first + second)[..|first + second| - 1] == first + second[..|second| - 1];
    }
  }

  /** The shares counted are those of the orders that reach the broker in live trading. */
  lemma {:induction false} SubmittedShares(attempts: seq<Attempt>, side: OrderType)
    requires forall a :: a in attempts ==> Sound(a)
    ensures SharesIn(Submissions(attempts, false), side) == AddUp(attempts, side).shares
  {
    if attempts != [] {
      var init, a := attempts[..|attempts| - 1], attempts[|attempts| - 1];
      SubmittedShares(init, side);
      SubmittedEntry(a, side);
      SharesInAdds(Submissions(init, false), a.Submitted(false), side);
      assert Entries(attempts, side)[..|attempts| - 1] == Entries(init, side);
    }
  }

  lemma SubmittedEntry(a: Attempt, side: OrderType)
    requires Sound(a)
    ensures AtLimits(a.Submitted(false), side) == EntryOf(a, side).atLimit
    ensures SharesIn(a.Submitted(false), side) == EntryOf(a, side).shares
  {
    if a.price.Num? {
      SharesFit(a.order.posMarketValue, a.price.value);
      assert AtLimits([], side) == 0.0;
      if 0 < a.Shares() { assert a.Submitted(false)[..0] == []; }
    }
  }

  /** The totals at the limit are those of the orders that reach the broker in live trading. */
  lemma {:induction false} SubmittedAtLimits(attempts: seq<Attempt>, side: OrderType)
    requires forall a :: a in attempts ==> Sound(a)
    ensures AtLimits(Submissions(attempts, false), side) == AddUp(attempts, side).atLimit
  {
    if attempts != [] {
      var init, a := attempts[..|attempts| - 1], attempts[|attempts| - 1];
      SubmittedAtLimits(init, side);
      SubmittedEntry(a, side);
      AtLimitsAdds(Submissions(init, false), a.Submitted(false), side);
      assert Entries(attempts, side)[..|attempts| - 1] == Entries(init, side);
    }
  }

  // ---------- From the budget to the broker ----------

  ghost function SideValueOfAttempts(attempts: seq<Attempt>, side: OrderType): real {
    if attempts == [] then 0.0
    else
      var a := attempts[|attempts| - 1];
      SideValueOfAttempts(attempts[..|attempts| - 1], side) + (if a.order.orderType == side then a.order.posMarketValue else 0.0)
  }

  lemma {:induction false} SideValuesConcatenate(first: seq<Attempt>, second: seq<Attempt>, side: OrderType)
    ensures SideValueOfAttempts(first + second, side) == SideValueOfAttempts(first, side) + SideValueOfAttempts(second, side)
  {
    if second == [] {
      assert first + second == first;
    } else {
      SideValuesConcatenate(first, second[..|second| - 1], side);
      assert (first + second)[..|first + second| - 1] == first + second[..|second| - 1];
    }
  }

  lemma {:induction false} PassesShareTheValue(
      orders: seq<RqOrder>, marks: map<string, Mark>, bars: seq<seq<BarResult>>, side: OrderType, n: nat)
    requires n <= |orders| == |bars|
    ensures SideValueOfAttempts(AttemptsOver(orders, marks, bars, true, n), side) +
      SideValueOfAttempts(AttemptsOver(orders, marks, bars, false, n), side) == SideValue(orders[..n], side)
  {
    if n > 0 {
      PassesShareTheValue(orders, marks, bars, side, n - 1);
      assert orders[..n][..n - 1] == orders[..n - 1];
      PassStep(orders, marks, bars, side, n, true);
      PassStep(orders, marks, bars, side, n, false);
    }
  }

  lemma PassStep(
      orders: seq<RqOrder>, marks: map<string, Mark>, bars: seq<seq<BarResult>>, side: OrderType, n: nat, cached: bool)
    requires 0 < n <= |orders| == |bars|
    ensures SideValueOfAttempts(AttemptsOver(orders, marks, bars, cached, n), side) ==
      SideValueOfAttempts(AttemptsOver(orders, marks, bars, cached, n - 1), side) +
      (if Marked(marks, orders[n - 1]) == cached && orders[n - 1].orderType == side then orders[n - 1].posMarketValue else 0.0)
  {
    var before, more := AttemptsOver(orders, marks, bars, cached, n - 1), AttemptsOver(orders, marks, bars, cached, n);
    if Marked(marks, orders[n - 1]) == cached { assert more[..|more| - 1] == before; }
  }

  lemma AttemptsAreThePasses(orders: seq<RqOrder>, marks: map<string, Mark>, bars: seq<seq<BarResult>>)
    requires |bars| == |orders|
    ensures Attempts(orders, marks, bars) ==
      AttemptsOver(orders, marks, bars, true, |orders|) + AttemptsOver(orders, marks, bars, false, |orders|)
  {
    AttemptsOverPositions(orders, marks, bars, true, |orders|);
    AttemptsOverPositions(orders, marks, bars, false, |orders|);
  }

  /** The two passes neither lose nor repeat any of the ordered value. */
  lemma AttemptsConserveValue(orders: seq<RqOrder>, marks: map<string, Mark>, bars: seq<seq<BarResult>>, side: OrderType)
    requires |bars| == |orders|
    ensures SideValueOfAttempts(Attempts(orders, marks, bars), side) == SideValue(orders, side)
  {
    var n := |orders|;
    var first, second := AttemptsOver(orders, marks, bars, true, n), AttemptsOver(orders, marks, bars, false, n);
    AttemptsAreThePasses(orders, marks, bars);
    SideValuesConcatenate(first, second, side);
    PassesShareTheValue(orders, marks, bars, side, n);
    assert orders[..n] == orders;
  }

  lemma {:induction false} AllottedIsPartOfValue(attempts: seq<Attempt>, side: OrderType)
    requires forall a :: a in attempts ==> Sound(a)
    ensures 0.0 <= AddUp(attempts, side).allotted <= SideValueOfAttempts(attempts, side)
  {
    if attempts != [] {
      AllottedIsPartOfValue(attempts[..|attempts| - 1], side);
      assert Entries(attempts, side)[..|attempts| - 1] == Entries(attempts[..|attempts| - 1], side);
      assert Sound(attempts[|attempts| - 1]);
    }
  }

  ghost predicate PositivePrices(orders: seq<RqOrder>, marks: map<string, Mark>, bars: seq<seq<BarResult>>)
    requires |bars| == |orders|
  {
    forall i :: 0 <= i < |orders| ==>
      var price := PriceOf(orders[i], marks, bars[i]);
      price.Num? ==> 0.0 < price.value
  }

  /** A day's orders, split from the budgets and placed at any positive prices: the shares bought never exceed the buy
      budget at their prices, exceed it by at most 2.1% and half a cent a share at their limits, and that is what the
      broker receives; likewise for the sells; and less than one share's price per priced order stays unspent. */
  lemma {:induction false} PlacedWithinBudget(
      events: seq<TransactionEvent>, buyPv: real, sellPv: real, marks: map<string, Mark>, bars: seq<seq<BarResult>>,
      side: OrderType)
    requires 0.0 <= buyPv && 0.0 <= sellPv && |bars| == |events|
    requires PositivePrices(BuildRqOrders(Allocated(events, buyPv, sellPv)), marks, bars)
    ensures var attempts := Attempts(BuildRqOrders(Allocated(events, buyPv, sellPv)), marks, bars);
      var t, budget := AddUp(attempts, side), if side == Buy then buyPv else sellPv;
      && t.bought <= t.allotted <= budget
      && ((forall a :: a in attempts ==> a.Shares() < I32_MAX) ==> Spent(t))
      && AtLimits(Submissions(attempts, false), side) == t.atLimit
      && SharesIn(Submissions(attempts, false), side) == t.shares
      && (side == Buy ==> t.atLimit <= 1.021 * budget + 0.005 * t.shares)
      && (side == Sell ==> 0.979 * t.bought - 0.005 * t.shares <= t.atLimit)
  {
    var orders := BuildRqOrders(Allocated(events, buyPv, sellPv));
    AttemptsAreSound(events, buyPv, sellPv, marks, bars);
    AllocationConservesBudget(events, buyPv, sellPv, side);
    PlacedWithinValue(orders, marks, bars, side, if side == Buy then buyPv else sellPv);
  }

  /** What reaches the broker carries the security and the side of an event, and is priced by the cache, else by the
      event's own price, else by the first bar. */
  lemma SubmissionsNameEvents(
      events: seq<TransactionEvent>, buyPv: real, sellPv: real, marks: map<string, Mark>, bars: seq<seq<BarResult>>,
      isSimulation: bool, s: Submission)
    returns (i: nat, price: Price)
    requires |bars| == |events|
    requires s in Submissions(Attempts(BuildRqOrders(Allocated(events, buyPv, sellPv)), marks, bars), isSimulation)
    ensures i < |events| && s.ticker == events[i].ticker && s.orderType == events[i].orderType
    ensures price.Num? && s.limit == LimitPrice(s.orderType, price.value)
    ensures s.shares == NumShares(Part(events, buyPv, sellPv, events[i].orderType), price.value)
    ensures s.ticker in marks && marks[s.ticker].value.Num? ==> price == marks[s.ticker].value
    ensures s.ticker !in marks || marks[s.ticker].value.NaN? ==> IsFallbackPrice(price, events[i].price, bars[i])
  {
    var orders, p := BuildRqOrders(Allocated(events, buyPv, sellPv)), 0;
    p, i := SubmissionsFollowOrders(orders, marks, bars, isSimulation, s);
    price := Attempts(orders, marks, bars)[p].price;
    AttemptPrices(orders, marks, bars, p);
    OrdersNameEvents(events, buyPv, sellPv, i);
  }

  lemma PlacedWithinValue(
      orders: seq<RqOrder>, marks: map<string, Mark>, bars: seq<seq<BarResult>>, side: OrderType, budget: real)
    requires |bars| == |orders| && SideValue(orders, side) <= budget
    requires forall a :: a in Attempts(orders, marks, bars) ==> Sound(a)
    ensures var attempts := Attempts(orders, marks, bars);
      var t := AddUp(attempts, side);
      && t.bought <= t.allotted <= budget
      && ((forall a :: a in attempts ==> a.Shares() < I32_MAX) ==> Spent(t))
      && AtLimits(Submissions(attempts, false), side) == t.atLimit
      && SharesIn(Submissions(attempts, false), side) == t.shares
      && (side == Buy ==> t.atLimit <= 1.021 * budget + 0.005 * t.shares)
      && (side == Sell ==> 0.979 * t.bought - 0.005 * t.shares <= t.atLimit)
  {
    var attempts := Attempts(orders, marks, bars);
    if forall a :: a in attempts ==> a.Shares() < I32_MAX { ShortfallBounded(attempts, side); }
    AttemptsConserveValue(orders, marks, bars, side);
    AllottedIsPartOfValue(attempts, side);
    TotalsBounded(attempts, side);
    SubmittedAtLimits(attempts, side);
    SubmittedShares(attempts, side);
  }

  lemma AttemptsAreSound(
      events: seq<TransactionEvent>, buyPv: real, sellPv: real, marks: map<string, Mark>, bars: seq<seq<BarResult>>)
    requires 0.0 <= buyPv && 0.0 <= sellPv && |bars| == |events|
    requires PositivePrices(BuildRqOrders(Allocated(events, buyPv, sellPv)), marks, bars)
    ensures forall a :: a in Attempts(BuildRqOrders(Allocated(events, buyPv, sellPv)), marks, bars) ==> Sound(a)
  {
    var orders := BuildRqOrders(Allocated(events, buyPv, sellPv));
    var visit := VisitOrder(orders, marks);
    forall a | a in Attempts(orders, marks, bars) ensures Sound(a) {
      var p :| 0 <= p < |visit| && a == Attempts(orders, marks, bars)[p];
      var i := visit[p];
      PartNonNegative(events, buyPv, sellPv, events[i].orderType);
    }
  }

  lemma PartNonNegative(events: seq<TransactionEvent>, buyPv: real, sellPv: real, side: OrderType)
    requires 0.0 <= buyPv && 0.0 <= sellPv
    ensures 0.0 <= Part(events, buyPv, sellPv, side)
  {
    var budget, count := if side == Buy then buyPv else sellPv, CountOf(events, side);
    if count > 0 {
      var part := budget / count as real;
      assert part * count as real == budget;
      if part < 0.0 { ProductStrictlyMonotone(part, 0.0, count as real); }
    }
  }
}
