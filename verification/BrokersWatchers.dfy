/** Placing orders with the broker: prices from the cache first, then the slow ones; sizes in whole shares; limit prices
    in cents (src/common/broker-common/src/brokers_watcher.rs). */
module BrokersWatchers {
  import opened RealArithmetic
  import opened Wrappers
  import opened Orders
  import opened MarkValueCaches

  // ---------- Sizing and pricing one order ----------

  const I32_MAX := 0x7FFF_FFFF
  const I32_MIN := -0x8000_0000

  /** Rust's conversion of a whole float to i32, which saturates. */
  function ToI32(x: int): int {
    if x > I32_MAX then I32_MAX else if x < I32_MIN then I32_MIN else x
  }

  /** Division by a zero price gives an infinity, or NaN for a zero value; these convert to the bounds and to 0. */
  function NumShares(marketValue: real, price: real): int {
    if price == 0.0 then (if marketValue > 0.0 then I32_MAX else if marketValue < 0.0 then I32_MIN else 0)
    else ToI32((marketValue / price).Floor)
  }

  /** Rust's round(): half away from zero. */
  function Round(x: real): int {
    if x >= 0.0 then (x + 0.5).Floor else -(-x + 0.5).Floor
  }

  function LimitPrice(side: OrderType, price: real): real {
    Round(price * (if side == Buy then 1.021 else 0.979) * 100.0) as real / 100.0
  }

  datatype Submission = Submission(orderType: OrderType, ticker: string, shares: int, limit: real)

  datatype LogLine =
    | CachedMark(ticker: string, mark: Mark)
    | NoPrice(order: RqOrder)
    | ZeroSize(order: RqOrder, price: real, shares: int)
    | BeforeOrder(order: RqOrder, price: real, shares: int)

  /** A call of place_order. */
  datatype Attempt = Attempt(order: RqOrder, price: Price) {
    function Shares(): int {
      if price.NaN? then 0 else NumShares(order.posMarketValue, price.value)
    }

    function Log(): LogLine {
      if price.NaN? then NoPrice(order)
      else if Shares() <= 0 then ZeroSize(order, price.value, Shares())
      else BeforeOrder(order, price.value, Shares())
    }

    function Submitted(isSimulation: bool): seq<Submission> {
      if price.NaN? || Shares() <= 0 || isSimulation then []
      else [Submission(order.orderType, order.ticker, Shares(), LimitPrice(order.orderType, price.value))]
    }
  }

  function Logs(attempts: seq<Attempt>): seq<LogLine> {
    if attempts == [] then [] else Logs(attempts[..|attempts| - 1]) + [attempts[|attempts| - 1].Log()]
  }

  function Submissions(attempts: seq<Attempt>, isSimulation: bool): seq<Submission> {
    if attempts == [] then []
    else Submissions(attempts[..|attempts| - 1], isSimulation) + attempts[|attempts| - 1].Submitted(isSimulation)
  }

  // ---------- Which price, in which order ----------

  /** What a subscription to real-time bars yields next. */
  datatype BarResult = Bar(close: Price) | BarError

  function KnownLastOrIbPrice(knownLast: Option<Price>, bars: seq<BarResult>): Price {
    if knownLast.Some? && knownLast.value.Num? then knownLast.value
    else if bars != [] && bars[0].Bar? then bars[0].close
    else NaN
  }

  function Marked(marks: map<string, Mark>, order: RqOrder): bool {
    GetMark(marks, order.ticker).value.Num?
  }

  /** The positions among the first n orders whose ticker has (or has not) a cached price, in order. */
  function Positions(orders: seq<RqOrder>, marks: map<string, Mark>, cached: bool, n: nat): (r: seq<nat>)
    requires n <= |orders|
    ensures forall p :: 0 <= p < |r| ==> r[p] < n && Marked(marks, orders[r[p]]) == cached
  {
    if n == 0 then []
    else Positions(orders, marks, cached, n - 1) + (if Marked(marks, orders[n - 1]) == cached then [n - 1] else [])
  }

  /** A known price that is a number wins, whatever the bars; else the first bar decides alone, and NaN stands for none. */
  ghost predicate IsFallbackPrice(price: Price, knownLast: Option<Price>, bars: seq<BarResult>) {
    && (forall x :: knownLast == Some(Num(x)) ==> price == Num(x))
    && (knownLast in {None, Some(NaN)} ==>
      && (forall close :: [Bar(close)] <= bars ==> price == close)
      && (bars == [] || [BarError] <= bars ==> price == NaN))
  }

  function PriceOf(order: RqOrder, marks: map<string, Mark>, bars: seq<BarResult>): Price {
    if Marked(marks, order) then GetMark(marks, order.ticker).value
    else KnownLastOrIbPrice(order.knownLastPrice, bars)
  }

  function AttemptsAt(orders: seq<RqOrder>, marks: map<string, Mark>, bars: seq<seq<BarResult>>, positions: seq<nat>)
    : (r: seq<Attempt>)
    requires |bars| == |orders| && forall p :: 0 <= p < |positions| ==> positions[p] < |orders|
    ensures |r| == |positions|
  {
    seq(|positions|, p requires 0 <= p < |positions| =>
      Attempt(orders[positions[p]], PriceOf(orders[positions[p]], marks, bars[positions[p]])))
  }

  ghost function AttemptsOver(
      orders: seq<RqOrder>, marks: map<string, Mark>, bars: seq<seq<BarResult>>, cached: bool, n: nat): seq<Attempt>
    requires n <= |orders| == |bars|
  {
    if n == 0 then []
    else if Marked(marks, orders[n - 1]) == cached then
      AttemptsOver(orders, marks, bars, cached, n - 1) + [Attempt(orders[n - 1], PriceOf(orders[n - 1], marks, bars[n - 1]))]
    else AttemptsOver(orders, marks, bars, cached, n - 1)
  }

  lemma {:induction false} AttemptsOverPositions(
      orders: seq<RqOrder>, marks: map<string, Mark>, bars: seq<seq<BarResult>>, cached: bool, n: nat)
    requires n <= |orders| == |bars|
    ensures AttemptsAt(orders, marks, bars, Positions(orders, marks, cached, n)) == AttemptsOver(orders, marks, bars, cached, n)
  {
    if n > 0 { AttemptsOverPositions(orders, marks, bars, cached, n - 1); }
  }

  /** The order in which place_orders comes to the orders. */
  function VisitOrder(orders: seq<RqOrder>, marks: map<string, Mark>): (r: seq<nat>)
    ensures forall p :: 0 <= p < |r| ==> r[p] < |orders|
  {
    Positions(orders, marks, true, |orders|) + Positions(orders, marks, false, |orders|)
  }

  /** The calls of place_order that place_orders makes. */
  function Attempts(orders: seq<RqOrder>, marks: map<string, Mark>, bars: seq<seq<BarResult>>): seq<Attempt>
    requires |bars| == |orders|
  {
    AttemptsAt(orders, marks, bars, VisitOrder(orders, marks))
  }

  function MarkLines(orders: seq<RqOrder>, marks: map<string, Mark>): seq<LogLine> {
    seq(|orders|, i requires 0 <= i < |orders| => CachedMark(orders[i].ticker, GetMark(marks, orders[i].ticker)))
  }

  datatype BrokerClient = DcMain | DcBlanzac | Gyantal

  class BrokersWatcher {
    // Per gateway, whether its client is initialised.
    var gateways: map<BrokerClient, bool>
    // What has been submitted through the clients.
    var submitted: seq<Submission>

    constructor ()
      ensures gateways == map[] && submitted == []
    {
      gateways, submitted := map[], [];
    }

    predicate Connected(client: BrokerClient)
      reads this
    {
      client in gateways && gateways[client]
    }

    method PlaceOrder(isSimulation: bool, order: RqOrder, price: Price) returns (log: LogLine)
      modifies this`submitted
      ensures submitted == old(submitted) + Attempt(order, price).Submitted(isSimulation)
      ensures log == Attempt(order, price).Log()
    {
      if price.NaN? { return NoPrice(order); }
      var shares := NumShares(order.posMarketValue, price.value);
      if shares <= 0 { return ZeroSize(order, price.value, shares); }
      log := BeforeOrder(order, price.value, shares);
      if isSimulation { return; }
      submitted := submitted + [match order.orderType
        case Buy => Submission(Buy, order.ticker, shares, LimitPrice(Buy, price.value))
        case Sell => Submission(Sell, order.ticker, shares, LimitPrice(Sell, price.value))];
    }

    method GetKnownLastOrIbPrice(knownLast: Option<Price>, bars: seq<BarResult>) returns (price: Price)
      ensures price == KnownLastOrIbPrice(knownLast, bars)
      ensures IsFallbackPrice(price, knownLast, bars)
    {
      if knownLast.Some? && !knownLast.value.NaN? { return knownLast.value; }
      price := NaN;
      for i := 0 to |bars|
        invariant i == 0 && price == NaN
      {
        match bars[i] {
          case Bar(close) => price := close;
          case BarError =>
        }
        break;
      }
    }

    /** place_orders. marks is the content of the mark-value cache; bars[i] is what the price subscription for order i
        would yield, if it is made. The lines are appended to the caller's log. */
    method PlaceOrders(orders: seq<RqOrder>, isSimulation: bool, marks: map<string, Mark>, bars: seq<seq<BarResult>>)
      returns (lines: seq<LogLine>)
      requires |bars| == |orders|
      modifies this`submitted
      ensures (forall client :: client in {Gyantal, DcMain} ==> client in gateways && gateways[client]) ==>
        && submitted == old(submitted) + Submissions(Attempts(orders, marks, bars), isSimulation)
        && lines == MarkLines(orders, marks) + Logs(Attempts(orders, marks, bars))
      ensures (exists client :: client in {Gyantal, DcMain} && (client !in gateways || !gateways[client])) ==>
        submitted == old(submitted) && lines == MarkLines(orders, marks)
    {
      lines := [];
      if |orders| == 0 {
        assert Attempts(orders, marks, bars) == [];
        return;
      }
      var known: map<string, real>;
      lines, known := ReadMarks(orders, marks);
      if !Connected(Gyantal) { return; }
      if !Connected(DcMain) { return; }
      var more := PlaceInTwoPasses(orders, isSimulation, marks, bars, known);
      lines := lines + more;
    }

    method PlaceInTwoPasses(
        orders: seq<RqOrder>, isSimulation: bool, ghost marks: map<string, Mark>, bars: seq<seq<BarResult>>,
        known: map<string, real>)
      returns (lines: seq<LogLine>)
      requires |bars| == |orders|
      requires forall i :: 0 <= i < |orders| ==> (orders[i].ticker in known <==> Marked(marks, orders[i]))
      requires forall t :: t in known ==> GetMark(marks, t).value == Num(known[t])
      modifies this`submitted
      ensures submitted == old(submitted) + Submissions(Attempts(orders, marks, bars), isSimulation)
      ensures lines == Logs(Attempts(orders, marks, bars))
    {
      var firstLines, unknown := PlaceKnown(orders, isSimulation, marks, bars, known);
      var secondLines := PlaceUnknown(orders, isSimulation, marks, bars, unknown);
      lines := firstLines + secondLines;
      TwoPasses(orders, marks, bars, isSimulation);
      Associate(old(submitted),
        Submissions(AttemptsAt(orders, marks, bars, Positions(orders, marks, true, |orders|)), isSimulation),
        Submissions(AttemptsAt(orders, marks, bars, Positions(orders, marks, false, |orders|)), isSimulation));
    }

    /** Read the cache for every order; known holds the values that are not NaN. */
    method ReadMarks(orders: seq<RqOrder>, marks: map<string, Mark>) returns (lines: seq<LogLine>, known: map<string, real>)
      ensures lines == MarkLines(orders, marks)
      ensures forall i :: 0 <= i < |orders| ==> (orders[i].ticker in known <==> Marked(marks, orders[i]))
      ensures forall t :: t in known ==> GetMark(marks, t).value == Num(known[t])
    {
      lines, known := [], map[];
      for i := 0 to |orders|
        invariant lines == MarkLines(orders[..i], marks)
        invariant forall j :: 0 <= j < i ==> (orders[j].ticker in known <==> Marked(marks, orders[j]))
        invariant forall t :: t in known ==> GetMark(marks, t).value == Num(known[t])
      {
        var mark := GetMark(marks, orders[i].ticker);
        lines := lines + [CachedMark(orders[i].ticker, mark)];
        if mark.value.Num? { known := known[orders[i].ticker := mark.value.value]; }
      }
      assert orders[..|orders|] == orders;
    }

    /** The first pass: place what has a cached price, set the rest aside. */
    method PlaceKnown(
        orders: seq<RqOrder>, isSimulation: bool, ghost marks: map<string, Mark>, ghost bars: seq<seq<BarResult>>,
        known: map<string, real>)
      returns (lines: seq<LogLine>, unknown: seq<nat>)
      requires |bars| == |orders|
      requires forall i :: 0 <= i < |orders| ==> (orders[i].ticker in known <==> Marked(marks, orders[i]))
      requires forall t :: t in known ==> GetMark(marks, t).value == Num(known[t])
      modifies this`submitted
      ensures var attempts := AttemptsAt(orders, marks, bars, Positions(orders, marks, true, |orders|));
        submitted == old(submitted) + Submissions(attempts, isSimulation) && lines == Logs(attempts)
      ensures unknown == Positions(orders, marks, false, |orders|)
    {
      lines, unknown := [], [];
      ghost var done: seq<Attempt> := [];
      for i := 0 to |orders|
        invariant done == AttemptsOver(orders, marks, bars, true, i)
        invariant submitted == old(submitted) + Submissions(done, isSimulation) && lines == Logs(done)
        invariant unknown == Positions(orders, marks, false, i)
      {
        if orders[i].ticker in known {
          var price := Num(known[orders[i].ticker]);
          var line := PlaceOrder(isSimulation, orders[i], price);
          lines := lines + [line];
          OneMore(done, Attempt(orders[i], price), isSimulation);
          done := done + [Attempt(orders[i], price)];
        } else {
          unknown := unknown + [i];
        }
      }
      AttemptsOverPositions(orders, marks, bars, true, |orders|);
    }

    /** The second pass: find a price for each order set aside, and place it. */
    method PlaceUnknown(
        orders: seq<RqOrder>, isSimulation: bool, ghost marks: map<string, Mark>, bars: seq<seq<BarResult>>,
        unknown: seq<nat>)
      returns (lines: seq<LogLine>)
      requires |bars| == |orders|
      requires forall p :: 0 <= p < |unknown| ==> unknown[p] < |orders| && !Marked(marks, orders[unknown[p]])
      modifies this`submitted
      ensures var attempts := AttemptsAt(orders, marks, bars, unknown);
        submitted == old(submitted) + Submissions(attempts, isSimulation) && lines == Logs(attempts)
    {
      lines := [];
      ghost var attempts := AttemptsAt(orders, marks, bars, unknown);
      for p := 0 to |unknown|
        invariant submitted == old(submitted) + Submissions(attempts[..p], isSimulation) && lines == Logs(attempts[..p])
      {
        var i := unknown[p];
        var price := GetKnownLastOrIbPrice(orders[i].knownLastPrice, bars[i]);
        var line := PlaceOrder(isSimulation, orders[i], price);
        lines := lines + [line];
        assert attempts[p] == Attempt(orders[i], price);
        assert attempts[..p + 1] == attempts[..p] + [attempts[p]];
        OneMore(attempts[..p], attempts[p], isSimulation);
      }
      assert attempts[..|unknown|] == attempts;
    }
  }

  lemma TwoPasses(orders: seq<RqOrder>, marks: map<string, Mark>, bars: seq<seq<BarResult>>, isSimulation: bool)
    requires |bars| == |orders|
    ensures var first := AttemptsAt(orders, marks, bars, Positions(orders, marks, true, |orders|));
      var second := AttemptsAt(orders, marks, bars, Positions(orders, marks, false, |orders|));
      var all := Attempts(orders, marks, bars);
      && Submissions(all, isSimulation) == Submissions(first, isSimulation) + Submissions(second, isSimulation)
      && Logs(all) == Logs(first) + Logs(second)
  {
    var first := AttemptsAt(orders, marks, bars, Positions(orders, marks, true, |orders|));
    var second := AttemptsAt(orders, marks, bars, Positions(orders, marks, false, |orders|));
    assert Attempts(orders, marks, bars) == first + second;
    SubmissionsConcatenate(first, second, isSimulation);
    LogsConcatenate(first, second);
  }

  lemma OneMore(done: seq<Attempt>, next: Attempt, isSimulation: bool)
    ensures Submissions(done + [next], isSimulation) == Submissions(done, isSimulation) + next.Submitted(isSimulation)
    ensures Logs(done + [next]) == Logs(done) + [next.Log()]
  {
    assert (done + [next])[..|done + [next]| - 1] == done;
  }

  lemma Associate<T>(a: seq<T>, b: seq<T>, c: seq<T>)
    ensures (a + b) + c == a + (b + c)
  {
  }

  lemma {:induction false} SubmissionsConcatenate(first: seq<Attempt>, second: seq<Attempt>, isSimulation: bool)
    ensures Submissions(first + second, isSimulation) == Submissions(first, isSimulation) + Submissions(second, isSimulation)
  {
    if second == [] {
      assert first + second == first;
    } else {
      var init, last := second[..|second| - 1], second[|second| - 1];
      SubmissionsConcatenate(first, init, isSimulation);
      assert (first + second)[..|first + second| - 1] == first + init;
      Associate(Submissions(first, isSimulation), Submissions(init, isSimulation), last.Submitted(isSimulation));
    }
  }

  lemma {:induction false} LogsConcatenate(first: seq<Attempt>, second: seq<Attempt>)
    ensures Logs(first + second) == Logs(first) + Logs(second)
  {
    if second == [] {
      assert first + second == first;
    } else {
      var init := second[..|second| - 1];
      LogsConcatenate(first, init);
      assert (first + second)[..|first + second| - 1] == first + init;
    }
  }

  // ---------- Prices, sizes and limits ----------

  /** Each attempt is one of the orders, at the cached price if that is a number, else at the fallback price. */
  lemma {:induction false} AttemptPrices(orders: seq<RqOrder>, marks: map<string, Mark>, bars: seq<seq<BarResult>>, p: nat)
    requires |bars| == |orders| && p < |VisitOrder(orders, marks)|
    ensures var a, i := Attempts(orders, marks, bars)[p], VisitOrder(orders, marks)[p];
      && a.order == orders[i]
      && (a.order.ticker in marks && marks[a.order.ticker].value.Num? ==> a.price == marks[a.order.ticker].value)
      && (a.order.ticker !in marks || marks[a.order.ticker].value.NaN? ==>
        IsFallbackPrice(a.price, a.order.knownLastPrice, bars[i]))
  {
  }

  /** Every submission is an order's: its security, its side, its whole shares at the attempt's price and their limit. */
  lemma {:induction false} SubmissionsFollowOrders(
      orders: seq<RqOrder>, marks: map<string, Mark>, bars: seq<seq<BarResult>>, isSimulation: bool, s: Submission)
    returns (p: nat, i: nat)
    requires |bars| == |orders| && s in Submissions(Attempts(orders, marks, bars), isSimulation)
    ensures p < |VisitOrder(orders, marks)| && i == VisitOrder(orders, marks)[p] && i < |orders|
    ensures var price := Attempts(orders, marks, bars)[p].price;
      && s.ticker == orders[i].ticker && s.orderType == orders[i].orderType
      && price.Num? && s.shares == NumShares(orders[i].posMarketValue, price.value)
      && s.limit == LimitPrice(s.orderType, price.value)
  {
    var attempts := Attempts(orders, marks, bars);
    SubmissionsAreSized(attempts, isSimulation);
    var a :| a in attempts && s in a.Submitted(false);
    SubmittedIs(a, s);
    p :| 0 <= p < |attempts| && attempts[p] == a;
    i := VisitOrder(orders, marks)[p];
    AttemptPrices(orders, marks, bars, p);
  }

  lemma SubmittedIs(a: Attempt, s: Submission)
    requires s in a.Submitted(false)
    ensures s.ticker == a.order.ticker && s.orderType == a.order.orderType
    ensures a.price.Num? && s.shares == NumShares(a.order.posMarketValue, a.price.value)
    ensures s.limit == LimitPrice(s.orderType, a.price.value)
  {
  }

  /** Rounding goes to the nearest whole number, and away from zero halfway. */
  lemma RoundIsNearest(x: real)
    ensures -0.5 <= Round(x) as real - x <= 0.5
    ensures x >= 0.0 ==> Round(x) as real - x != -0.5
    ensures x < 0.0 ==> Round(x) as real - x != 0.5
  {
  }

  /** Limits are whole cents: those nearest to 2.1 percent above the price of a buy and below that of a sell. */
  lemma LimitIsWholeCents(side: OrderType, price: real) returns (cents: int)
    ensures LimitPrice(side, price) * 100.0 == cents as real
    ensures var exact := price * (match side case Buy => 102.1 case Sell => 97.9); -0.5 <= cents as real - exact <= 0.5
  {
    cents := Round(price * (if side == Buy then 1.021 else 0.979) * 100.0);
    RoundIsNearest(price * (if side == Buy then 1.021 else 0.979) * 100.0);
  }

  /** Without value nothing is bought; at a price of zero the division gives an infinity, which the cast to 32 bits turns
      into its greatest value. */
  lemma SharesAtTheEdges(marketValue: real, price: real)
    ensures 0.0 < price && marketValue <= 0.0 ==> NumShares(marketValue, price) <= 0
    ensures 0.0 < marketValue ==> NumShares(marketValue, 0.0) == 2_147_483_647
    ensures marketValue <= 0.0 ==> NumShares(marketValue, 0.0) <= 0
  {
    if 0.0 < price && marketValue <= 0.0 { QuotientSign(-marketValue, price); }
  }

  /** The log line tells what became of the order: it had no price, or bought no share at its price, or is sent. */
  lemma LogTells(a: Attempt)
    ensures a.Log().NoPrice? <==> a.price == NaN
    ensures a.Log().BeforeOrder? <==> a.Submitted(false) != []
    ensures !a.Log().CachedMark? && a.Log().order == a.order
    ensures !a.Log().NoPrice? ==>
      Num(a.Log().price) == a.price && a.Log().shares == NumShares(a.order.posMarketValue, a.Log().price)
  {
  }

  /** Before anything else the log names, for every order, its security's cached price, NaN if there is none. */
  lemma MarkLinesTell(orders: seq<RqOrder>, marks: map<string, Mark>, i: nat)
    requires i < |orders|
    ensures |MarkLines(orders, marks)| == |orders| && MarkLines(orders, marks)[i].CachedMark?
    ensures MarkLines(orders, marks)[i].ticker == orders[i].ticker
    ensures orders[i].ticker in marks ==> MarkLines(orders, marks)[i].mark == marks[orders[i].ticker]
    ensures orders[i].ticker !in marks ==> MarkLines(orders, marks)[i].mark.value == NaN
  {
  }

  /** The lines that announce an order. */
  function Announced(lines: seq<LogLine>): seq<LogLine> {
    if lines == [] then []
    else Announced(lines[..|lines| - 1]) + (if lines[|lines| - 1].BeforeOrder? then [lines[|lines| - 1]] else [])
  }

  /** The log announces exactly the submissions of live trading, in order, with their security, side, shares and price,
      also in a simulation. */
  lemma {:induction false} LogAnnouncesSubmissions(attempts: seq<Attempt>)
    ensures var lines, submitted := Announced(Logs(attempts)), Submissions(attempts, false);
      && |lines| == |submitted|
      && forall j :: 0 <= j < |lines| ==> Announces(lines[j], submitted[j])
  {
    if attempts != [] {
      var init, last := attempts[..|attempts| - 1], attempts[|attempts| - 1];
      LogAnnouncesSubmissions(init);
      assert Logs(attempts)[..|Logs(attempts)| - 1] == Logs(init);
    }
  }

  ghost predicate Announces(line: LogLine, s: Submission) {
    && line.BeforeOrder? && line.order.ticker == s.ticker && line.order.orderType == s.orderType
    && line.shares == s.shares && LimitPrice(s.orderType, line.price) == s.limit
  }

  // ---------- The two passes are a stable partition ----------

  lemma {:induction false} PositionsExact(orders: seq<RqOrder>, marks: map<string, Mark>, cached: bool, n: nat)
    requires n <= |orders|
    ensures forall i: nat :: i in Positions(orders, marks, cached, n) <==> i < n && Marked(marks, orders[i]) == cached
  {
    if n > 0 { PositionsExact(orders, marks, cached, n - 1); }
  }

  ghost predicate Increasing(s: seq<nat>, bound: nat) {
    (forall p :: 0 <= p < |s| ==> s[p] < bound) && forall p, q :: 0 <= p < q < |s| ==> s[p] < s[q]
  }

  lemma {:induction false} PositionsIncrease(orders: seq<RqOrder>, marks: map<string, Mark>, cached: bool, n: nat)
    requires n <= |orders|
    ensures Increasing(Positions(orders, marks, cached, n), n)
  {
    if n > 0 {
      PositionsIncrease(orders, marks, cached, n - 1);
      IncreasingAppend(Positions(orders, marks, cached, n - 1), n - 1);
    }
  }

  lemma IncreasingAppend(s: seq<nat>, next: nat)
    requires Increasing(s, next)
    ensures Increasing(s, next + 1) && Increasing(s + [next], next + 1)
  {
  }

  lemma {:induction false} PositionsCount(orders: seq<RqOrder>, marks: map<string, Mark>, n: nat)
    requires n <= |orders|
    ensures |Positions(orders, marks, true, n)| + |Positions(orders, marks, false, n)| == n
  {
    if n > 0 { PositionsCount(orders, marks, n - 1); }
  }

  /** Every order is visited exactly once: first those with a cached price, then the others, both in input order. */
  lemma VisitsAreAStablePartition(orders: seq<RqOrder>, marks: map<string, Mark>)
    ensures var visit := VisitOrder(orders, marks);
      && |visit| == |orders|
      && (forall i: nat :: i < |orders| ==> i in visit)
      && (forall p, q :: 0 <= p < q < |visit| ==>
        var before, after := Marked(marks, orders[visit[p]]), Marked(marks, orders[visit[q]]);
        (before && !after) || (before == after && visit[p] < visit[q]))
  {
    PositionsExact(orders, marks, true, |orders|);
    PositionsExact(orders, marks, false, |orders|);
    PositionsIncrease(orders, marks, true, |orders|);
    PositionsIncrease(orders, marks, false, |orders|);
    PositionsCount(orders, marks, |orders|);
  }

  /** No order is submitted without a price or with no shares, and none in a simulation. */
  lemma {:induction false} SubmissionsAreSized(attempts: seq<Attempt>, isSimulation: bool)
    ensures forall s :: s in Submissions(attempts, isSimulation) ==>
      && !isSimulation
      && 1 <= s.shares <= I32_MAX
      && exists a :: a in attempts && s in a.Submitted(false)
  {
    if attempts != [] {
      var init, last := attempts[..|attempts| - 1], attempts[|attempts| - 1];
      SubmissionsAreSized(init, isSimulation);
      assert attempts == init + [last];
    }
  }
}
