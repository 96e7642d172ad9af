/** The simulation over many price paths and its averages and medians
    (src/rqcoresrv/src/webapps/withdrawal_simulator/withdrawal_simulator.ts, withdrawalSimulation and
    withdrawalSimulationResult). Daily returns are inputs: one row per simulated path. */
module WithdrawalSimulations {
  import opened RealArithmetic
  import opened Schedules
  import opened Statistics
  import opened WithdrawalLimits
  import opened WithdrawalPaths
  import opened Wrappers

  // ---------- Prices ----------

  function PriceOn(rets: seq<real>, n: nat): real
    requires n < |rets|
  {
    (if n == 0 then 1.0 else PriceOn(rets, n - 1)) * (1.0 + rets[n])
  }

  function PricesOf(rets: seq<real>): seq<real> {
    seq(|rets|, n requires 0 <= n < |rets| => PriceOn(rets, n))
  }

  ghost predicate AboveTotalLoss(rets: seq<real>) {
    forall k :: 0 <= k < |rets| ==> -1.0 < rets[k]
  }

  /** Only a return of exactly -1 makes the price zero, and then for good. */
  ghost predicate NoTotalLoss(rets: seq<real>) {
    forall k :: 0 <= k < |rets| ==> rets[k] != -1.0
  }

  lemma {:induction false} PriceNonZero(rets: seq<real>, n: nat)
    requires NoTotalLoss(rets) && n < |rets|
    ensures PriceOn(rets, n) != 0.0
  {
    if n > 0 {
      PriceNonZero(rets, n - 1);
      ProductNonZero(PriceOn(rets, n - 1), 1.0 + rets[n]);
    }
  }

  lemma {:induction false} PricePositive(rets: seq<real>, n: nat)
    requires AboveTotalLoss(rets) && n < |rets|
    ensures 0.0 < PriceOn(rets, n)
  {
    if n > 0 {
      PricePositive(rets, n - 1);
      ProductSign(PriceOn(rets, n - 1), 1.0 + rets[n]);
    }
  }

  lemma PricesPositive(rets: seq<real>)
    requires AboveTotalLoss(rets)
    ensures Positive(PricesOf(rets))
  {
    forall n: nat | n < |rets| ensures 0.0 < PriceOn(rets, n) { PricePositive(rets, n); }
  }

  method DailyPrice(dailyRet: seq<real>) returns (dailyPrice: seq<real>)
    requires dailyRet != []
    ensures dailyPrice == PricesOf(dailyRet)
  {
    var a := new real[|dailyRet|];
    a[0] := 1.0 + dailyRet[0];
    for j := 1 to a.Length
      invariant forall k :: 0 <= k < j ==> a[k] == PriceOn(dailyRet, k)
    {
      var price := a[j - 1] * (1.0 + dailyRet[j]);
      assert price == PriceOn(dailyRet, j);
      a[j] := price;
    }
    dailyPrice := a[..];
  }

  // ---------- Schedules ----------

  method DailyAddDep(p: Params) returns (dailyAddDep: seq<real>)
    requires 0 <= p.simLength
    ensures |dailyAddDep| == NDays(p) && forall i :: 0 <= i < NDays(p) ==> dailyAddDep[i] == AddDepOn(p, i)
  {
    var a := new real[p.simLength * 252];
    for i := 0 to a.Length
      invariant forall k :: 0 <= k < i ==> a[k] == AddDepOn(p, k)
    {
      if i < p.addDepEnd * 21 && IsEndOfPeriod(i, p.addDepFreq) {
        a[i] := p.addDepVal;
      } else {
        a[i] := 0.0;
      }
    }
    dailyAddDep := a[..];
  }

  method DailyWithDraw(p: Params) returns (dailyWithDraw: seq<real>)
    requires 0 <= p.simLength
    ensures |dailyWithDraw| == NDays(p) && forall i :: 0 <= i < NDays(p) ==> dailyWithDraw[i] == WithDrawOn(p, i)
  {
    var a := new real[p.simLength * 252];
    for i := 0 to a.Length
      invariant forall k :: 0 <= k < i ==> a[k] == WithDrawOn(p, k)
    {
      if i >= p.withDrawStart * 21 - 1 && IsEndOfPeriod(i, p.withDrawFreq) {
        a[i] := p.withDrawPerc / 100.0;
      } else {
        a[i] := 0.0;
      }
    }
    dailyWithDraw := a[..];
  }

  // ---------- The accounts of one path ----------

  ghost predicate IsShares(path: Path, s: seq<real>) {
    path.Valid() && |s| == |path.prices| && forall n: nat :: n < |s| ==> s[n] == path.Shares(n)
  }

  ghost predicate IsWithdrawn(path: Path, s: seq<real>) {
    path.Valid() && |s| == |path.prices| && forall n: nat :: n < |s| ==> s[n] == path.Withdrawn(n)
  }

  ghost predicate IsHeld(path: Path, s: seq<real>) {
    path.Valid() && |s| == |path.prices| && forall n: nat :: n < |s| ==> s[n] == path.Held(n)
  }

  lemma DayOf(path: Path, n: nat, s: real, v: real, shares: real, withdrawn: real)
    requires path.Valid() && 0 < n < |path.prices| && s == path.Shares(n - 1) && v == path.Withdrawn(n - 1)
    requires shares == AfterTrades(s, path.dep[n], path.prices[n], path.w[n])
    requires withdrawn == v + Proceeds(s, path.w[n], path.prices[n])
    ensures shares == path.Shares(n) && withdrawn == path.Withdrawn(n)
  {
  }

  method DailyShares(path: Path) returns (dailyNoSh: seq<real>, dailyWithPV: seq<real>)
    requires path.Valid()
    ensures IsShares(path, dailyNoSh) && IsWithdrawn(path, dailyWithPV)
  {
    var a, b := new real[|path.prices|], new real[|path.prices|];
    ghost var s := seq(a.Length, n requires 0 <= n < |path.prices| => path.Shares(n));
    ghost var v := seq(a.Length, n requires 0 <= n < |path.prices| => path.Withdrawn(n));
    a[0], b[0] := path.ini, 0.0;
    for j := 1 to a.Length
      invariant forall n :: 0 <= n < j ==> a[n] == s[n]
      invariant forall n :: 0 <= n < j ==> b[n] == v[n]
    {
      var shares := AfterTrades(a[j - 1], path.dep[j], path.prices[j], path.w[j]);
      var withdrawn := b[j - 1] + Proceeds(a[j - 1], path.w[j], path.prices[j]);
      DayOf(path, j, s[j - 1], v[j - 1], shares, withdrawn);
      a[j], b[j] := shares, withdrawn;
    }
    dailyNoSh, dailyWithPV := a[..], b[..];
  }

  method DailySharesBH(path: Path) returns (dailyNoShBH: seq<real>)
    requires path.Valid()
    ensures IsHeld(path, dailyNoShBH)
  {
    var a := new real[|path.prices|];
    a[0] := path.ini;
    for j := 1 to a.Length
      invariant forall n: nat :: n < j ==> a[n] == path.Held(n)
    {
      a[j] := a[j - 1] + path.dep[j] / path.prices[j];
    }
    dailyNoShBH := a[..];
  }

  function Products(s: seq<real>, prices: seq<real>): seq<real>
    requires |s| == |prices|
  {
    seq(|s|, n requires 0 <= n < |s| => s[n] * prices[n])
  }

  method DailyPV(shares: seq<real>, prices: seq<real>) returns (dailyPV: seq<real>)
    requires |shares| == |prices|
    ensures dailyPV == Products(shares, prices)
  {
    var a := new real[|shares|];
    for j := 0 to a.Length
      invariant forall n :: 0 <= n < j ==> a[n] == Products(shares, prices)[n]
    {
      a[j] := shares[j] * prices[j];
    }
    dailyPV := a[..];
  }

  // ---------- All simulated paths ----------

  /** One row of returns, none of them a total loss, for every simulation, one return for every day. */
  ghost predicate ValidReturns(p: Params, rets: seq<seq<real>>) {
    && Accepted(p) && 1 <= p.simLength && |rets| == p.nSimulations
    && forall i :: 0 <= i < |rets| ==> |rets[i]| == NDays(p) && NoTotalLoss(rets[i])
  }

  ghost predicate AllAboveTotalLoss(rets: seq<seq<real>>) {
    forall i :: 0 <= i < |rets| ==> AboveTotalLoss(rets[i])
  }

  ghost function SimulatedPath(p: Params, rets: seq<real>): (path: Path)
    requires 1 <= p.simLength && |rets| == NDays(p) && NoTotalLoss(rets)
    ensures path.Valid()
  {
    assert forall n: nat :: n < |rets| ==> PricesOf(rets)[n] != 0.0 by {
      forall n: nat | n < |rets| ensures PricesOf(rets)[n] != 0.0 { PriceNonZero(rets, n); }
    }
    PathOf(p, PricesOf(rets))
  }

  /** What each simulation holds, holds under buy and hold, and has withdrawn on a day. */
  ghost function Invested(p: Params, rets: seq<seq<real>>, day: nat): seq<real>
    requires ValidReturns(p, rets) && day < NDays(p)
  {
    seq(|rets|, i requires 0 <= i < |rets| => SimulatedPath(p, rets[i]).Value(day))
  }

  ghost function BuyAndHold(p: Params, rets: seq<seq<real>>, day: nat): seq<real>
    requires ValidReturns(p, rets) && day < NDays(p)
  {
    seq(|rets|, i requires 0 <= i < |rets| => SimulatedPath(p, rets[i]).HeldValue(day))
  }

  ghost function WithdrawnValues(p: Params, rets: seq<seq<real>>, day: nat): seq<real>
    requires ValidReturns(p, rets) && day < NDays(p)
  {
    seq(|rets|, i requires 0 <= i < |rets| => SimulatedPath(p, rets[i]).Withdrawn(day))
  }

  function Column(rows: seq<seq<real>>, day: nat): seq<real>
    requires forall i :: 0 <= i < |rows| ==> day < |rows[i]|
  {
    seq(|rows|, i requires 0 <= i < |rows| => rows[i][day])
  }

  /** The accounts of one path. */
  ghost predicate IsAccount(path: Path, pv: seq<real>, pvBH: seq<real>, withPV: seq<real>) {
    && path.Valid() && |pv| == |pvBH| == |withPV| == |path.prices|
    && forall n: nat :: n < |pv| ==>
      pv[n] == path.Value(n) && pvBH[n] == path.HeldValue(n) && withPV[n] == path.Withdrawn(n)
  }

  lemma ProductsAreAccounts(path: Path, shares: seq<real>, held: seq<real>, withPV: seq<real>)
    requires IsShares(path, shares) && IsHeld(path, held) && IsWithdrawn(path, withPV)
    ensures IsAccount(path, Products(shares, path.prices), Products(held, path.prices), withPV)
  {
  }

  method WithdrawalSimulation(p: Params, dailyRets: seq<seq<real>>)
    returns (dailyPVs: seq<seq<real>>, dailyPVsBH: seq<seq<real>>, dailyWithPVs: seq<seq<real>>)
    requires ValidReturns(p, dailyRets)
    ensures |dailyPVs| == |dailyPVsBH| == |dailyWithPVs| == |dailyRets|
    ensures forall i :: 0 <= i < |dailyRets| ==>
      IsAccount(SimulatedPath(p, dailyRets[i]), dailyPVs[i], dailyPVsBH[i], dailyWithPVs[i])
  {
    var paths: seq<Path> := [];
    var dailyAddDep := DailyAddDep(p);
    var dailyWithDraw := DailyWithDraw(p);
    for i := 0 to |dailyRets|
      invariant |paths| == i && forall k :: 0 <= k < i ==> paths[k] == SimulatedPath(p, dailyRets[k])
    {
      var dailyPrice := DailyPrice(dailyRets[i]);
      assert dailyAddDep == SimulatedPath(p, dailyRets[i]).dep && dailyWithDraw == SimulatedPath(p, dailyRets[i]).w;
      paths := paths + [Path(p.iniDep, dailyPrice, dailyAddDep, dailyWithDraw)];
    }
    var dailyNoShs: seq<seq<real>> := [];
    dailyWithPVs := [];
    for i := 0 to |paths|
      invariant |dailyNoShs| == |dailyWithPVs| == i
      invariant forall k :: 0 <= k < i ==> IsShares(paths[k], dailyNoShs[k]) && IsWithdrawn(paths[k], dailyWithPVs[k])
    {
      var dailyNoSh, dailyWithPV := DailyShares(paths[i]);
      dailyNoShs, dailyWithPVs := dailyNoShs + [dailyNoSh], dailyWithPVs + [dailyWithPV];
    }
    var dailyNoShsBH: seq<seq<real>> := [];
    for i := 0 to |paths|
      invariant |dailyNoShsBH| == i && forall k :: 0 <= k < i ==> IsHeld(paths[k], dailyNoShsBH[k])
    {
      var dailyNoShBH := DailySharesBH(paths[i]);
      dailyNoShsBH := dailyNoShsBH + [dailyNoShBH];
    }
    dailyPVs := [];
    for i := 0 to |paths|
      invariant |dailyPVs| == i && forall k :: 0 <= k < i ==> dailyPVs[k] == Products(dailyNoShs[k], paths[k].prices)
    {
      var dailyPV := DailyPV(dailyNoShs[i], paths[i].prices);
      dailyPVs := dailyPVs + [dailyPV];
    }
    dailyPVsBH := [];
    for i := 0 to |paths|
      invariant |dailyPVsBH| == i && forall k :: 0 <= k < i ==> dailyPVsBH[k] == Products(dailyNoShsBH[k], paths[k].prices)
    {
      var dailyPVBH := DailyPV(dailyNoShsBH[i], paths[i].prices);
      dailyPVsBH := dailyPVsBH + [dailyPVBH];
    }
    forall i | 0 <= i < |paths| ensures IsAccount(paths[i], dailyPVs[i], dailyPVsBH[i], dailyWithPVs[i]) {
      ProductsAreAccounts(paths[i], dailyNoShs[i], dailyNoShsBH[i], dailyWithPVs[i]);
    }
  }

  // ---------- Averages and medians ----------

  /** The three loops over the days are one: average first, then the median, which sorts the column in place. */
  method AverageAndMedian(rows: seq<seq<real>>, nDays: nat) returns (avg: seq<real>, med: seq<real>)
    requires rows != [] && forall i :: 0 <= i < |rows| ==> |rows[i]| == nDays
    ensures |avg| == |med| == nDays
    ensures forall day: nat :: day < nDays ==> avg[day] == Average(Column(rows, day)) && med[day] == Median(Column(rows, day))
  {
    avg, med := [], [];
    for day := 0 to nDays
      invariant |avg| == |med| == day
      invariant forall k: nat :: k < day ==> avg[k] == Average(Column(rows, k)) && med[k] == Median(Column(rows, k))
    {
      var sub := new real[|rows|];
      for j := 0 to sub.Length
        invariant forall k :: 0 <= k < j ==> sub[k] == rows[k][day]
      {
        sub[j] := rows[j][day];
      }
      assert sub[..] == Column(rows, day);
      var a := SqAverage(sub);
      var m := SqMedian(sub);
      avg, med := avg + [a], med + [m];
    }
  }

  datatype Curves = Curves(avg: seq<real>, med: seq<real>)

  method Total(nDays: nat, with: Curves, drawn: Curves) returns (total: Curves)
    requires |with.avg| == |with.med| == |drawn.avg| == |drawn.med| == nDays
    ensures |total.avg| == |total.med| == nDays
    ensures forall i :: 0 <= i < nDays ==> total.avg[i] == with.avg[i] + drawn.avg[i]
    ensures forall i :: 0 <= i < nDays ==> total.med[i] == with.med[i] + drawn.med[i]
  {
    var a, m := new real[nDays], new real[nDays];
    for i := 0 to nDays
      invariant forall k :: 0 <= k < i ==> a[k] == with.avg[k] + drawn.avg[k] && m[k] == with.med[k] + drawn.med[k]
    {
      a[i], m[i] := with.avg[i] + drawn.avg[i], with.med[i] + drawn.med[i];
    }
    total := Curves(a[..], m[..]);
  }

  /** The curves are the averages and medians over the simulated paths. */
  ghost predicate AreCurves(p: Params, rets: seq<seq<real>>, wo: Curves, with: Curves, drawn: Curves) {
    && ValidReturns(p, rets)
    && |wo.avg| == |wo.med| == |with.avg| == |with.med| == |drawn.avg| == |drawn.med| == NDays(p)
    && forall day: nat :: day < NDays(p) ==>
      && wo.avg[day] == Average(BuyAndHold(p, rets, day)) && wo.med[day] == Median(BuyAndHold(p, rets, day))
      && with.avg[day] == Average(Invested(p, rets, day)) && with.med[day] == Median(Invested(p, rets, day))
      && drawn.avg[day] == Average(WithdrawnValues(p, rets, day)) && drawn.med[day] == Median(WithdrawnValues(p, rets, day))
  }

  method WithdrawalSimulationResult(p: Params, dailyRets: seq<seq<real>>)
    returns (wo: Curves, with: Curves, drawn: Curves, total: Curves)
    requires ValidReturns(p, dailyRets)
    ensures AreCurves(p, dailyRets, wo, with, drawn)
    ensures |total.avg| == |total.med| == NDays(p)
    ensures forall i :: 0 <= i < NDays(p) ==>
      total.avg[i] == with.avg[i] + drawn.avg[i] && total.med[i] == with.med[i] + drawn.med[i]
  {
    var dailyPVs, dailyPVsBH, dailyWithPVs := WithdrawalSimulation(p, dailyRets);
    var woAvg, woMed := AverageAndMedian(dailyPVsBH, NDays(p));
    var withAvg, withMed := AverageAndMedian(dailyPVs, NDays(p));
    var drawnAvg, drawnMed := AverageAndMedian(dailyWithPVs, NDays(p));
    wo, with, drawn := Curves(woAvg, woMed), Curves(withAvg, withMed), Curves(drawnAvg, drawnMed);
    forall day: nat | day < NDays(p)
      ensures Column(dailyPVsBH, day) == BuyAndHold(p, dailyRets, day)
      ensures Column(dailyPVs, day) == Invested(p, dailyRets, day)
      ensures Column(dailyWithPVs, day) == WithdrawnValues(p, dailyRets, day)
    {
    }
    total := Total(NDays(p), with, drawn);
  }

  // ---------- What the curves show ----------

  lemma {:induction false} InvestedAtMostHeld(p: Params, rets: seq<seq<real>>, day: nat)
    requires ValidReturns(p, rets) && AllAboveTotalLoss(rets) && day < NDays(p)
    requires p.withDrawPerc <= 200.0 || !WithdrawsTwice(p, NDays(p))
    ensures AtMost(Invested(p, rets, day), BuyAndHold(p, rets, day))
  {
    forall i | 0 <= i < |rets|
      ensures SimulatedPath(p, rets[i]).Value(day) <= SimulatedPath(p, rets[i]).HeldValue(day)
    {
      ValueStaysBehind(p, rets[i], day);
    }
  }

  lemma ValueStaysBehind(p: Params, rets: seq<real>, day: nat)
    requires Accepted(p) && 1 <= p.simLength && |rets| == NDays(p) && AboveTotalLoss(rets) && day < NDays(p)
    requires p.withDrawPerc <= 200.0 || !WithdrawsTwice(p, NDays(p))
    ensures SimulatedPath(p, rets).Value(day) <= SimulatedPath(p, rets).HeldValue(day)
  {
    PricesPositive(rets);
    StaysBehind(p, PricesOf(rets), NDays(p), day);
    FewerSharesWorthLess(SimulatedPath(p, rets), day);
  }

  /** On every day the average and the median still-invested value are no more than the average and the median
      buy-and-hold value. */
  ghost predicate CurvesNeverAhead(p: Params) {
    forall rets, day: nat :: ValidReturns(p, rets) && AllAboveTotalLoss(rets) && day < NDays(p) ==>
      && Average(Invested(p, rets, day)) <= Average(BuyAndHold(p, rets, day))
      && Median(Invested(p, rets, day)) <= Median(BuyAndHold(p, rets, day))
  }

  function ReturnsOf(prices: seq<real>): seq<real>
    requires forall k :: 0 <= k < |prices| ==> prices[k] > 0.0
  {
    seq(|prices|, n requires 0 <= n < |prices| => prices[n] / (if n == 0 then 1.0 else prices[n - 1]) - 1.0)
  }

  lemma Ratio(x: real, y: real)
    requires 0.0 < x && 0.0 < y
    ensures -1.0 < x / y - 1.0 && y * (1.0 + (x / y - 1.0)) == x
  {
    assert x / y * y == x;
    if x / y <= 0.0 { ProductMonotone(x / y, 0.0, y); }
  }

  /** Every positive price path comes from returns above a total loss. */
  lemma {:induction false} PricesOfReturns(prices: seq<real>, n: nat)
    requires Positive(prices) && n < |prices|
    ensures -1.0 < ReturnsOf(prices)[n] && PriceOn(ReturnsOf(prices), n) == prices[n]
  {
    Ratio(prices[n], if n == 0 then 1.0 else prices[n - 1]);
    if n > 0 { PricesOfReturns(prices, n - 1); }
  }

  lemma ReturnsFor(prices: seq<real>) returns (rets: seq<real>)
    requires Positive(prices)
    ensures |rets| == |prices| && AboveTotalLoss(rets) && PricesOf(rets) == prices
  {
    rets := ReturnsOf(prices);
    forall n: nat | n < |prices| ensures -1.0 < rets[n] && PriceOn(rets, n) == prices[n] { PricesOfReturns(prices, n); }
  }

  lemma {:induction false} SumOfEqual(s: seq<real>, x: real)
    requires forall i :: 0 <= i < |s| ==> s[i] == x
    ensures Sum(s) == |s| as real * x
  {
    if s != [] {
      SumOfEqual(s[..|s| - 1], x);
      assert |s| as real * x == (|s| - 1) as real * x + x;
    }
  }

  lemma AverageOfEqual(s: seq<real>, x: real)
    requires s != [] && forall i :: 0 <= i < |s| ==> s[i] == x
    ensures Average(s) == x
  {
    SumOfEqual(s, x);
    assert |s| as real * x / |s| as real == x;
  }

  /** The guarantee holds for every outcome of the random returns if and only if at most 200 percent are withdrawn at a
      time or no two withdrawals happen after money was paid in. */
  lemma {:induction false} CurvesNeverAheadIff(p: Params)
    requires Accepted(p) && 1 <= p.simLength
    ensures CurvesNeverAhead(p) <==> p.withDrawPerc <= 200.0 || !WithdrawsTwice(p, NDays(p))
  {
    if p.withDrawPerc <= 200.0 || !WithdrawsTwice(p, NDays(p)) {
      forall rets, day: nat | ValidReturns(p, rets) && AllAboveTotalLoss(rets) && day < NDays(p)
        ensures Average(Invested(p, rets, day)) <= Average(BuyAndHold(p, rets, day))
        ensures Median(Invested(p, rets, day)) <= Median(BuyAndHold(p, rets, day))
      {
        InvestedAtMostHeld(p, rets, day);
        AverageAndMedianMonotone(Invested(p, rets, day), BuyAndHold(p, rets, day));
      }
    } else {
      var prices, day := TwoWithdrawalsOvertake(p, NDays(p));
      AverageOvertakes(p, prices, day);
    }
  }

  /** The driver accepts inputs for which the guarantee fails: one year, a deposit of 100 at its start, and 250 percent
      withdrawn at the end of every month. */
  lemma AcceptedInputAhead()
    ensures var raw := RawInputs(1.0, 10.0, 1.0, 100.0, 12.0, 0.0, None, 1.0, 1.0, 250.0);
      Accept(raw).Some? && !CurvesNeverAhead(Accept(raw).value)
  {
    var raw := RawInputs(1.0, 10.0, 1.0, 100.0, 12.0, 0.0, None, 1.0, 1.0, 250.0);
    assert 1.0.Floor == 1 && 12.0.Floor == 12;
    var p := Accept(raw).value;
    assert p == Params(1, 1, 100.0, 12, 0.0, 12, 1, 1, 250.0);
    WithdrawsTwiceIff(p, NDays(p));
    CurvesNeverAheadIff(p);
  }

  lemma {:induction false} AverageOvertakes(p: Params, prices: seq<real>, day: nat)
    requires Accepted(p) && 1 <= p.simLength && |prices| == NDays(p) && Positive(prices) && day < NDays(p)
    requires PathOf(p, prices).Shares(day) > PathOf(p, prices).Held(day)
    ensures !CurvesNeverAhead(p)
  {
    var row := ReturnsFor(prices);
    var rets := SameRows(p, row, day);
    MoreSharesWorthMore(SimulatedPath(p, row), day);
  }

  /** When all paths are the same, the averages are the values on that path. */
  lemma {:induction false} SameRows(p: Params, row: seq<real>, day: nat) returns (rets: seq<seq<real>>)
    requires Accepted(p) && 1 <= p.simLength && |row| == NDays(p) && AboveTotalLoss(row) && day < NDays(p)
    ensures ValidReturns(p, rets) && AllAboveTotalLoss(rets)
    ensures Average(Invested(p, rets, day)) == SimulatedPath(p, row).Value(day)
    ensures Average(BuyAndHold(p, rets, day)) == SimulatedPath(p, row).HeldValue(day)
  {
    rets := seq(p.nSimulations, _ => row);
    AverageOfEqual(Invested(p, rets, day), SimulatedPath(p, row).Value(day));
    AverageOfEqual(BuyAndHold(p, rets, day), SimulatedPath(p, row).HeldValue(day));
  }

  lemma MoreSharesWorthMore(path: Path, n: nat)
    requires path.Valid() && n < |path.prices| && 0.0 < path.prices[n] && path.Shares(n) > path.Held(n)
    ensures path.Value(n) > path.HeldValue(n)
  {
    ProductStrictlyMonotone(path.Held(n), path.Shares(n), path.prices[n]);
  }

  // ---------- The total curve ----------

  ghost function GainsOf(p: Params, rets: seq<seq<real>>, day: nat): seq<real>
    requires ValidReturns(p, rets) && day < NDays(p)
  {
    seq(|rets|, i requires 0 <= i < |rets| => SimulatedPath(p, rets[i]).Gains(day))
  }

  lemma {:induction false} SumOfTotals(s: seq<real>, t: seq<real>, g: seq<real>, paid: real)
    requires |s| == |t| == |g| && forall i :: 0 <= i < |s| ==> s[i] + t[i] == paid + g[i]
    ensures Sum(s) + Sum(t) == |s| as real * paid + Sum(g)
  {
    if s != [] {
      var n := |s| - 1;
      SumOfTotals(s[..n], t[..n], g[..n], paid);
      assert |s| as real * paid == n as real * paid + paid;
    }
  }

  lemma AverageOfTotals(s: real, t: real, g: real, paid: real, n: real)
    requires 0.0 < n && s + t == n * paid + g
    ensures s / n + t / n == paid + g / n
  {
    assert s / n + t / n == (s + t) / n;
    assert (n * paid + g) / n == paid + g / n;
  }

  /** The average total, invested plus withdrawn, is what was paid in so far plus the average price gain on the shares
      held: averaging creates and loses no money. */
  lemma {:induction false} AverageTotalConserves(p: Params, rets: seq<seq<real>>, day: nat)
    requires ValidReturns(p, rets) && day < NDays(p)
    ensures Average(Invested(p, rets, day)) + Average(WithdrawnValues(p, rets, day)) ==
      PaidIn(p, day + 1) + Average(GainsOf(p, rets, day))
  {
    var s, t, g := Invested(p, rets, day), WithdrawnValues(p, rets, day), GainsOf(p, rets, day);
    forall i | 0 <= i < |rets| ensures s[i] + t[i] == PaidIn(p, day + 1) + g[i] {
      PathConserves(p, rets[i], day);
    }
    AveragesOfTotals(s, t, g, PaidIn(p, day + 1));
  }

  lemma PathConserves(p: Params, rets: seq<real>, day: nat)
    requires 1 <= p.simLength && |rets| == NDays(p) && NoTotalLoss(rets) && day < NDays(p)
    ensures var path := SimulatedPath(p, rets);
      path.Value(day) + path.Withdrawn(day) == PaidIn(p, day + 1) + path.Gains(day)
  {
    SelfFinancing(SimulatedPath(p, rets), day);
    DepositedIsPaidIn(p, PricesOf(rets), day);
  }

  lemma AveragesOfTotals(s: seq<real>, t: seq<real>, g: seq<real>, paid: real)
    requires |s| == |t| == |g| > 0 && forall i :: 0 <= i < |s| ==> s[i] + t[i] == paid + g[i]
    ensures Average(s) + Average(t) == paid + Average(g)
  {
    SumOfTotals(s, t, g, paid);
    AverageOfTotals(Sum(s), Sum(t), Sum(g), paid, |s| as real);
  }
}
