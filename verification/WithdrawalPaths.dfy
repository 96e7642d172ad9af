/** The accounting of one simulated price path
    (src/rqcoresrv/src/webapps/withdrawal_simulator/withdrawal_simulator.ts, withdrawalSimulation). */
module WithdrawalPaths {
  import opened RealArithmetic
  import opened Schedules

  /** A day's deposit d buys at price p, and the part w of the shares is sold. */
  function AfterTrades(s: real, d: real, p: real, w: real): real
    requires p != 0.0
  {
    s + d / p - s * w
  }

  function Proceeds(s: real, w: real, p: real): real {
    s * w * p
  }

  /** The initial deposit; and per day the price, the additional deposit and the part of the shares withdrawn. */
  datatype Path = Path(ini: real, prices: seq<real>, dep: seq<real>, w: seq<real>) {
    ghost predicate Valid() {
      |dep| == |w| == |prices| > 0 && forall k :: 0 <= k < |prices| ==> prices[k] != 0.0
    }

    /** Shares held at the end of day n. */
    function Shares(n: nat): real
      requires Valid() && n < |prices|
    {
      if n == 0 then ini else AfterTrades(Shares(n - 1), dep[n], prices[n], w[n])
    }

    /** Value withdrawn up to day n. */
    function Withdrawn(n: nat): real
      requires Valid() && n < |prices|
    {
      if n == 0 then 0.0 else Withdrawn(n - 1) + Proceeds(Shares(n - 1), w[n], prices[n])
    }

    /** Shares under buy and hold. */
    function Held(n: nat): real
      requires Valid() && n < |prices|
    {
      if n == 0 then ini else Held(n - 1) + dep[n] / prices[n]
    }

    function Value(n: nat): real
      requires Valid() && n < |prices|
    {
      Shares(n) * prices[n]
    }

    function HeldValue(n: nat): real
      requires Valid() && n < |prices|
    {
      Held(n) * prices[n]
    }

    /** All deposits up to day n. */
    ghost function Deposited(n: nat): real
      requires Valid() && n < |prices|
    {
      if n == 0 then ini else Deposited(n - 1) + dep[n]
    }

    /** Price changes on the shares held, the initial deposit counting as bought at price 1. */
    ghost function Gains(n: nat): real
      requires Valid() && n < |prices|
    {
      if n == 0 then ini * (prices[0] - 1.0) else Gains(n - 1) + Shares(n - 1) * (prices[n] - prices[n - 1])
    }

    ghost function HeldGains(n: nat): real
      requires Valid() && n < |prices|
    {
      if n == 0 then ini * (prices[0] - 1.0) else HeldGains(n - 1) + Held(n - 1) * (prices[n] - prices[n - 1])
    }

    /** Price changes on the shares that withdrawing has given up. */
    ghost function Forgone(n: nat): real
      requires Valid() && n < |prices|
    {
      if n == 0 then 0.0 else Forgone(n - 1) + (Held(n - 1) - Shares(n - 1)) * (prices[n] - prices[n - 1])
    }
  }

  // ---------- Conservation ----------

  lemma DayConserves(s: real, d: real, p: real, w: real)
    requires p != 0.0
    ensures (s + d / p - s * w) * p + s * w * p == s * p + d
    ensures (s + d / p) * p == s * p + d
  {
    assert d / p * p == d;
  }

  /** A day's trades move money between the shares, the deposits and the withdrawals, and lose none. */
  lemma {:induction false} TradesConserve(path: Path, n: nat)
    requires path.Valid() && 0 < n < |path.prices|
    ensures path.Value(n) + path.Withdrawn(n) == path.Shares(n - 1) * path.prices[n] + path.dep[n] + path.Withdrawn(n - 1)
  {
    DayConserves(path.Shares(n - 1), path.dep[n], path.prices[n], path.w[n]);
  }

  lemma {:induction false} PurchasesConserve(path: Path, n: nat)
    requires path.Valid() && 0 < n < |path.prices|
    ensures path.HeldValue(n) == path.Held(n - 1) * path.prices[n] + path.dep[n]
  {
    DayConserves(path.Held(n - 1), path.dep[n], path.prices[n], 0.0);
  }

  lemma FirstPrice(s: real, p: real, value: real, gains: real)
    requires value == s * p && gains == s * (p - 1.0)
    ensures value == s + gains
  {
  }

  lemma PriceChange(s: real, p: real, q: real)
    ensures s * p == s * q + s * (p - q)
  {
  }

  /** Invested plus withdrawn value is always the deposits plus the gains on the shares held. */
  lemma {:induction false} SelfFinancing(path: Path, n: nat)
    requires path.Valid() && n < |path.prices|
    ensures path.Value(n) + path.Withdrawn(n) == path.Deposited(n) + path.Gains(n)
  {
    if n == 0 {
      FirstPrice(path.ini, path.prices[0], path.Value(0), path.Gains(0));
    } else {
      SelfFinancing(path, n - 1);
      var total := path.Value(n - 1) + path.Withdrawn(n - 1);
      TotalChange(path, n, total);
    }
  }

  /** A day adds its deposit and the price change on the shares held to the total. */
  lemma TotalChange(path: Path, n: nat, before: real)
    requires path.Valid() && 0 < n < |path.prices|
    requires before == path.Shares(n - 1) * path.prices[n - 1] + path.Withdrawn(n - 1)
    ensures path.Value(n) + path.Withdrawn(n) == before + path.dep[n] + (path.Gains(n) - path.Gains(n - 1))
  {
    TradesConserve(path, n);
    SelfFinancingDay(path, n, path.Shares(n - 1) * path.prices[n], before);
  }

  lemma SelfFinancingDay(path: Path, n: nat, carried: real, before: real)
    requires path.Valid() && 0 < n < |path.prices| && carried == path.Shares(n - 1) * path.prices[n]
    requires before == path.Shares(n - 1) * path.prices[n - 1] + path.Withdrawn(n - 1)
    ensures path.Gains(n) == path.Gains(n - 1) + carried + path.Withdrawn(n - 1) - before
  {
    PriceChange(path.Shares(n - 1), path.prices[n], path.prices[n - 1]);
  }

  lemma {:induction false} HoldingSelfFinancing(path: Path, n: nat)
    requires path.Valid() && n < |path.prices|
    ensures path.HeldValue(n) == path.Deposited(n) + path.HeldGains(n)
  {
    if n == 0 {
      FirstPrice(path.ini, path.prices[0], path.HeldValue(0), path.HeldGains(0));
    } else {
      HoldingSelfFinancing(path, n - 1);
      PurchasesConserve(path, n);
      PriceChange(path.Held(n - 1), path.prices[n], path.prices[n - 1]);
    }
  }

  lemma Difference(h: real, s: real, change: real)
    ensures (h - s) * change == h * change - s * change
  {
  }

  lemma {:induction false} ForgoneGains(path: Path, n: nat)
    requires path.Valid() && n < |path.prices|
    ensures path.Forgone(n) == path.HeldGains(n) - path.Gains(n)
  {
    if n > 0 {
      ForgoneGains(path, n - 1);
      Difference(path.Held(n - 1), path.Shares(n - 1), path.prices[n] - path.prices[n - 1]);
    }
  }

  /** Buying and holding is ahead of withdrawing by exactly the price changes on the shares given up. */
  lemma {:induction false} HoldingAdvantage(path: Path, n: nat)
    requires path.Valid() && n < |path.prices|
    ensures path.HeldValue(n) - (path.Value(n) + path.Withdrawn(n)) == path.Forgone(n)
  {
    SelfFinancing(path, n);
    HoldingSelfFinancing(path, n);
    ForgoneGains(path, n);
  }

  /** Buying and holding is the same simulation without withdrawals. */
  lemma {:induction false} HoldingIsNotWithdrawing(path: Path, idle: Path, n: nat)
    requires path.Valid() && n < |path.prices|
    requires idle == path.(w := idle.w) && |idle.w| == |path.w| && forall k :: 0 <= k < |idle.w| ==> idle.w[k] == 0.0
    ensures path.Held(n) == idle.Shares(n) && idle.Withdrawn(n) == 0.0
  {
    if n > 0 {
      HoldingIsNotWithdrawing(path, idle, n - 1);
      assert idle.Shares(n - 1) * idle.w[n] == 0.0;
    }
  }

  // ---------- Domination ----------

  /** Prices are positive, deposits are not negative, and no more than twice the shares are withdrawn at once. */
  ghost predicate Moderate(path: Path) {
    && path.Valid() && 0.0 <= path.ini
    && forall k :: 0 <= k < |path.prices| ==> 0.0 < path.prices[k] && 0.0 <= path.dep[k] && 0.0 <= path.w[k] <= 2.0
  }

  lemma PartOfHeld(s: real, w: real, part: real)
    requires 0.0 <= s && 0.0 <= w <= 2.0 && part == w * s
    ensures 0.0 <= part <= 2.0 * s
  {
    ProductMonotone(0.0, w, s);
    ProductMonotone(w, 2.0, s);
  }

  lemma PartOfOwed(s: real, w: real, part: real)
    requires s <= 0.0 && 0.0 <= w <= 2.0 && part == w * s
    ensures 2.0 * s <= part <= 0.0
  {
    ProductAntitone(0.0, w, s);
    ProductAntitone(w, 2.0, s);
  }

  /** Taking away up to twice as much leaves no more in size. */
  lemma ShrinksInSize(s: real, h: real, w: real, part: real)
    requires -h <= s <= h && 0.0 <= w <= 2.0 && part == w * s
    ensures -h <= s - part <= h
  {
    if 0.0 <= s { PartOfHeld(s, w, part); } else { PartOfOwed(s, w, part); }
  }

  lemma {:induction false} SharesDominated(path: Path, n: nat)
    requires Moderate(path) && n < |path.prices|
    ensures -path.Held(n) <= path.Shares(n) <= path.Held(n)
  {
    if n > 0 {
      SharesDominated(path, n - 1);
      ShrinksInSize(path.Shares(n - 1), path.Held(n - 1), path.w[n], path.w[n] * path.Shares(n - 1));
      QuotientSign(path.dep[n], path.prices[n]);
    }
  }

  lemma FewerSharesWorthLess(path: Path, n: nat)
    requires path.Valid() && n < |path.prices| && 0.0 < path.prices[n] && path.Shares(n) <= path.Held(n)
    ensures path.Value(n) <= path.HeldValue(n)
  {
    ProductMonotone(path.Shares(n), path.Held(n), path.prices[n]);
  }

  ghost predicate Rising(path: Path) {
    |path.prices| > 0 && forall k :: 0 < k < |path.prices| ==> path.prices[k - 1] <= path.prices[k]
  }

  ghost predicate Falling(path: Path) {
    |path.prices| > 0 && forall k :: 0 < k < |path.prices| ==> path.prices[k] <= path.prices[k - 1]
  }

  lemma SameSign(gap: real, change: real)
    requires 0.0 <= gap
    ensures 0.0 <= change ==> 0.0 <= gap * change
    ensures change <= 0.0 ==> gap * change <= 0.0
  {
  }

  /** Before day n the shares are never more than under buy and hold. */
  ghost predicate Behind(path: Path, n: nat) {
    path.Valid() && n < |path.prices| && forall k: nat :: k < n ==> path.Shares(k) <= path.Held(k)
  }

  lemma {:induction false} ForgoneSign(path: Path, n: nat)
    requires Behind(path, n)
    ensures Rising(path) ==> 0.0 <= path.Forgone(n)
    ensures Falling(path) ==> path.Forgone(n) <= 0.0
  {
    if n > 0 {
      ForgoneSign(path, n - 1);
      var gap, change := ForgoneStep(path, n);
      SameSign(gap, change);
    }
  }

  lemma {:induction false} ForgoneStep(path: Path, n: nat) returns (gap: real, change: real)
    requires path.Valid() && 0 < n < |path.prices|
    ensures path.Forgone(n) == path.Forgone(n - 1) + gap * change
    ensures gap == path.Held(n - 1) - path.Shares(n - 1) && change == path.prices[n] - path.prices[n - 1]
  {
    gap, change := path.Held(n - 1) - path.Shares(n - 1), path.prices[n] - path.prices[n - 1];
  }

  /** Counting what was withdrawn, withdrawing never beats holding when prices never fall, and never loses to it when
      they never rise, as long as it is not ahead in shares before. */
  lemma {:induction false} WithdrawingAgainstHolding(path: Path, n: nat)
    requires Behind(path, n)
    ensures Rising(path) ==> path.Value(n) + path.Withdrawn(n) <= path.HeldValue(n)
    ensures Falling(path) ==> path.HeldValue(n) <= path.Value(n) + path.Withdrawn(n)
  {
    HoldingAdvantage(path, n);
    ForgoneSign(path, n);
  }

  lemma {:induction false} NothingForgone(path: Path, n: nat)
    requires path.Valid() && n < |path.prices|
    requires forall k :: 0 < k <= n ==> path.prices[k - 1] == path.prices[k] || path.Held(k - 1) == path.Shares(k - 1)
    ensures path.Forgone(n) == 0.0
  {
    if n > 0 {
      NothingForgone(path, n - 1);
      ForgoneUnchanged(path, n);
    }
  }

  lemma ForgoneUnchanged(path: Path, n: nat)
    requires path.Valid() && 0 < n < |path.prices|
    requires path.prices[n - 1] == path.prices[n] || path.Held(n - 1) == path.Shares(n - 1)
    ensures path.Forgone(n) == path.Forgone(n - 1)
  {
    var gap, change := ForgoneStep(path, n);
    assert gap == 0.0 || change == 0.0;
  }

  /** At constant prices withdrawing, in whatever amounts, ties with holding. */
  lemma {:induction false} ConstantPricesTie(path: Path, n: nat)
    requires path.Valid() && n < |path.prices| && Rising(path) && Falling(path)
    ensures path.Value(n) + path.Withdrawn(n) == path.HeldValue(n)
  {
    HoldingAdvantage(path, n);
    NothingForgone(path, n);
  }

  // ---------- Closed form ----------

  /** What is left on day n of a share bought on day k. */
  ghost function Kept(path: Path, k: nat, n: nat): real
    requires path.Valid() && n < |path.prices|
  {
    if n <= k then 1.0 else Kept(path, k, n - 1) * (1.0 - path.w[n])
  }

  /** What is left on day n of the shares bought by the deposits of days 1 to m. */
  ghost function KeptOfDeposits(path: Path, m: nat, n: nat): real
    requires path.Valid() && m <= n < |path.prices|
  {
    if m == 0 then 0.0 else KeptOfDeposits(path, m - 1, n) + path.dep[m] / path.prices[m] * Kept(path, m, n)
  }

  lemma Factor(x: real, c: real, k: real, w: real)
    ensures (x + c * k) * (1.0 - w) == x * (1.0 - w) + c * (k * (1.0 - w))
  {
  }

  lemma {:induction false} KeptOfDepositsShrinks(path: Path, m: nat, n: nat)
    requires path.Valid() && m < n < |path.prices|
    ensures KeptOfDeposits(path, m, n) == KeptOfDeposits(path, m, n - 1) * (1.0 - path.w[n])
  {
    if m > 0 {
      KeptOfDepositsShrinks(path, m - 1, n);
      Factor(KeptOfDeposits(path, m - 1, n - 1), path.dep[m] / path.prices[m], Kept(path, m, n - 1), path.w[n]);
    }
  }

  /** What is left on day n of the initial deposit. */
  ghost function KeptOfInitial(path: Path, n: nat): real
    requires path.Valid() && n < |path.prices|
  {
    if n == 0 then path.ini else KeptOfInitial(path, n - 1) * (1.0 - path.w[n])
  }

  lemma {:induction false} InitialIsKept(path: Path, n: nat)
    requires path.Valid() && n < |path.prices|
    ensures KeptOfInitial(path, n) == path.ini * Kept(path, 0, n)
  {
    if n > 0 {
      InitialIsKept(path, n - 1);
      Associate(path.ini, Kept(path, 0, n - 1), 1.0 - path.w[n]);
    }
  }

  lemma Associate(x: real, y: real, z: real)
    ensures x * y * z == x * (y * z)
  {
  }

  /** A day in the closed form, in plain numbers. */
  lemma Step(s: real, a: real, i: real, w: real, bought: real, next: real, initial: real, deposits: real)
    requires s == i + a && next == s + bought - s * w
    requires initial == i * (1.0 - w) && deposits == a * (1.0 - w) + bought
    ensures next == initial + deposits
  {
  }

  lemma KeptOfDepositsNext(path: Path, n: nat)
    requires path.Valid() && 0 < n < |path.prices|
    ensures KeptOfDeposits(path, n, n) ==
      KeptOfDeposits(path, n - 1, n - 1) * (1.0 - path.w[n]) + path.dep[n] / path.prices[n]
  {
    KeptOfDepositsShrinks(path, n - 1, n);
    assert Kept(path, n, n) == 1.0;
  }

  lemma {:induction false} SharesAreKept(path: Path, n: nat)
    requires path.Valid() && n < |path.prices|
    ensures path.Shares(n) == KeptOfInitial(path, n) + KeptOfDeposits(path, n, n)
  {
    if n > 0 {
      SharesAreKept(path, n - 1);
      KeptOfDepositsNext(path, n);
      Step(path.Shares(n - 1), KeptOfDeposits(path, n - 1, n - 1), KeptOfInitial(path, n - 1), path.w[n],
        path.dep[n] / path.prices[n], path.Shares(n), KeptOfInitial(path, n), KeptOfDeposits(path, n, n));
    }
  }

  /** Every deposit buys shares of which each later withdrawal leaves the same part. */
  lemma {:induction false} ClosedForm(path: Path, n: nat)
    requires path.Valid() && n < |path.prices|
    ensures path.Shares(n) == path.ini * Kept(path, 0, n) + KeptOfDeposits(path, n, n)
  {
    SharesAreKept(path, n);
    InitialIsKept(path, n);
  }

  // ---------- The schedules of the simulator ----------

  function Power(x: real, n: nat): real {
    if n == 0 then 1.0 else x * Power(x, n - 1)
  }

  /** The path has the withdrawals of the given input. */
  ghost predicate WithdrawsBy(path: Path, p: Params) {
    path.Valid() && forall k :: 0 <= k < |path.prices| ==> path.w[k] == WithDrawOn(p, k)
  }

  lemma {:induction false} KeptIsPower(path: Path, p: Params, n: nat)
    requires WithdrawsBy(path, p) && n < |path.prices|
    ensures Kept(path, 0, n) == Power(1.0 - p.withDrawPerc / 100.0, PeriodEnds(p.withDrawFreq, p.withDrawStart, n + 1))
  {
    if n == 0 {
      assert !IsEndOfPeriod(0, p.withDrawFreq);
      assert PeriodEnds(p.withDrawFreq, p.withDrawStart, 1) == PeriodEnds(p.withDrawFreq, p.withDrawStart, 0);
    } else {
      KeptIsPower(path, p, n - 1);
      assert path.w[n] == WithDrawOn(p, n);
    }
  }

  lemma {:induction false} NothingKeptOfNoDeposits(path: Path, m: nat, n: nat)
    requires path.Valid() && m <= n < |path.prices| && forall k :: 0 <= k < |path.prices| ==> path.dep[k] == 0.0
    ensures KeptOfDeposits(path, m, n) == 0.0
  {
    if m > 0 {
      NothingKeptOfNoDeposits(path, m - 1, n);
      assert path.dep[m] / path.prices[m] == 0.0;
    }
  }

  lemma {:induction false} SharesWithoutDeposits(path: Path, n: nat)
    requires path.Valid() && n < |path.prices| && forall k :: 0 <= k < |path.prices| ==> path.dep[k] == 0.0
    ensures path.Shares(n) == path.ini * Kept(path, 0, n)
  {
    ClosedForm(path, n);
    NothingKeptOfNoDeposits(path, n, n);
  }

  /** Without additional deposits the simulation ends with the initial deposit times the kept part to the power of the
      number of withdrawals. */
  lemma {:induction false} FinalShares(path: Path, p: Params)
    requires Accepted(p) && 1 <= p.simLength && 1 <= p.withDrawFreq
    requires WithdrawsBy(path, p) && |path.prices| == NDays(p)
    requires forall k :: 0 <= k < |path.prices| ==> path.dep[k] == 0.0
    ensures path.Shares(NDays(p) - 1) == path.ini * Power(1.0 - p.withDrawPerc / 100.0,
      Max(0, 12 * p.simLength / p.withDrawFreq - (p.withDrawStart - 1) / p.withDrawFreq))
  {
    var n := NDays(p) - 1;
    SharesWithoutDeposits(path, n);
    KeptIsPower(path, p, n);
    WithdrawalCount(p);
  }
}
