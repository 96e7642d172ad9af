/** Transaction events, the orders built from them, and the split of a budget over them
    (src/rqcoresrv/src/robotrader/fast_runner.rs). */
module Orders {
  import opened Wrappers

  /** A 64-bit price or value: NaN stands for a missing one, other values are exact. */
  datatype Price = NaN | Num(value: real)

  datatype OrderType = Buy | Sell

  datatype TransactionEvent = TransactionEvent(
    orderType: OrderType, ticker: string, companyName: string, price: Option<Price>, posMarketValue: real)

  datatype RqOrder = RqOrder(
    orderType: OrderType, ticker: string, companyName: string, posMarketValue: real, knownLastPrice: Option<Price>)

  function CountOf(events: seq<TransactionEvent>, side: OrderType): nat {
    if events == [] then 0
    else CountOf(events[..|events| - 1], side) + (if events[|events| - 1].orderType == side then 1 else 0)
  }

  /** An equal part of the budget for each of count events. */
  function EqualPart(budget: real, count: nat): real {
    if count > 0 then budget / count as real else 0.0
  }

  function Part(events: seq<TransactionEvent>, buyPv: real, sellPv: real, side: OrderType): real {
    EqualPart(if side == Buy then buyPv else sellPv, CountOf(events, side))
  }

  /** The events with their market values set. */
  function Allocated(events: seq<TransactionEvent>, buyPv: real, sellPv: real): (r: seq<TransactionEvent>)
    ensures |r| == |events|
  {
    seq(|events|, i requires 0 <= i < |events| =>
      events[i].(posMarketValue := Part(events, buyPv, sellPv, events[i].orderType)))
  }

  /** build_rqorders */
  function BuildRqOrders(events: seq<TransactionEvent>): (orders: seq<RqOrder>)
    ensures |orders| == |events|
  {
    seq(|events|, i requires 0 <= i < |events| =>
      RqOrder(events[i].orderType, events[i].ticker, events[i].companyName, events[i].posMarketValue, events[i].price))
  }

  /** The market value ordered on one side. */
  function SideValue(orders: seq<RqOrder>, side: OrderType): real {
    if orders == [] then 0.0
    else
      var last := orders[|orders| - 1];
      SideValue(orders[..|orders| - 1], side) + (if last.orderType == side then last.posMarketValue else 0.0)
  }

  function OrderedValue(orders: seq<RqOrder>): real {
    SideValue(orders, Buy) + SideValue(orders, Sell)
  }

  /** The sum of count equal parts. */
  ghost function Multiple(count: nat, part: real): real {
    if count == 0 then 0.0 else Multiple(count - 1, part) + part
  }

  lemma {:induction false} SideValueOfEqualParts(events: seq<TransactionEvent>, side: OrderType, part: real)
    requires forall i :: 0 <= i < |events| && events[i].orderType == side ==> events[i].posMarketValue == part
    ensures SideValue(BuildRqOrders(events), side) == Multiple(CountOf(events, side), part)
  {
    if events != [] {
      var init := events[..|events| - 1];
      SideValueOfEqualParts(init, side, part);
      assert BuildRqOrders(events)[..|events| - 1] == BuildRqOrders(init);
    }
  }

  lemma {:induction false} CountOfAllocated(
      events: seq<TransactionEvent>, sized: seq<TransactionEvent>, side: OrderType)
    requires |sized| == |events|
    requires forall i :: 0 <= i < |events| ==> sized[i].orderType == events[i].orderType
    ensures CountOf(sized, side) == CountOf(events, side)
  {
    if events != [] {
      CountOfAllocated(events[..|events| - 1], sized[..|events| - 1], side);
    }
  }

  /** Each side with at least one event is ordered for exactly its budget, an empty side for nothing. */
  lemma AllocationConservesBudget(events: seq<TransactionEvent>, buyPv: real, sellPv: real, side: OrderType)
    ensures SideValue(BuildRqOrders(Allocated(events, buyPv, sellPv)), side) ==
      if CountOf(events, side) > 0 then (if side == Buy then buyPv else sellPv) else 0.0
  {
    EqualPartsAddUp(if side == Buy then buyPv else sellPv, CountOf(events, side));
    AllocatedSideValue(events, buyPv, sellPv, side);
  }

  /** Each order is for the security and the side of the event in its place, with the event's own price as the known
      price, and for its side's part. */
  lemma OrdersNameEvents(events: seq<TransactionEvent>, buyPv: real, sellPv: real, i: nat)
    requires i < |events|
    ensures var order := BuildRqOrders(Allocated(events, buyPv, sellPv))[i];
      && order.ticker == events[i].ticker && order.companyName == events[i].companyName
      && order.orderType == events[i].orderType && order.knownLastPrice == events[i].price
      && order.posMarketValue == Part(events, buyPv, sellPv, events[i].orderType)
  {
  }

  /** The part times the number of events on the side is the side's budget. */
  lemma {:induction false} PartsMakeBudget(events: seq<TransactionEvent>, buyPv: real, sellPv: real, i: nat)
    requires i < |events|
    ensures CountOf(events, events[i].orderType) as real * Part(events, buyPv, sellPv, events[i].orderType) ==
      match events[i].orderType case Buy => buyPv case Sell => sellPv
  {
    CountsItself(events, i);
    match events[i].orderType
    case Buy => PartsMakeWhole(buyPv, CountOf(events, Buy), Part(events, buyPv, sellPv, Buy));
    case Sell => PartsMakeWhole(sellPv, CountOf(events, Sell), Part(events, buyPv, sellPv, Sell));
  }

  lemma {:induction false} PartsMakeWhole(budget: real, count: nat, part: real)
    requires count > 0 && part == EqualPart(budget, count)
    ensures count as real * part == budget
  {
    EqualPartsAddUp(budget, count);
    MultipleIsProduct(count, part);
  }

  lemma {:induction false} CountsItself(events: seq<TransactionEvent>, i: nat)
    requires i < |events|
    ensures CountOf(events, events[i].orderType) > 0
  {
    if i < |events| - 1 { CountsItself(events[..|events| - 1], i); }
  }

  lemma AllocatedSideValue(events: seq<TransactionEvent>, buyPv: real, sellPv: real, side: OrderType)
    ensures SideValue(BuildRqOrders(Allocated(events, buyPv, sellPv)), side) ==
      Multiple(CountOf(events, side), Part(events, buyPv, sellPv, side))
  {
    var sized := Allocated(events, buyPv, sellPv);
    CountOfAllocated(events, sized, side);
    SideValueOfEqualParts(sized, side, Part(events, buyPv, sellPv, side));
  }

  lemma EqualPartsAddUp(budget: real, count: nat)
    ensures Multiple(count, EqualPart(budget, count)) == if count > 0 then budget else 0.0
  {
    MultipleIsProduct(count, EqualPart(budget, count));
    if count > 0 {
      var c := count as real;
      assert c * (budget / c) == budget;
    }
  }

  lemma {:induction false} MultipleIsProduct(count: nat, part: real)
    ensures Multiple(count, part) == count as real * part
  {
    if count > 0 { MultipleIsProduct(count - 1, part); }
  }
}
