/** When the withdrawing investor can hold more than the one who buys and holds. Nothing bounds the withdrawal
    percentage from above (src/rqcoresrv/src/webapps/withdrawal_simulator/withdrawal_simulator.ts:138), and taking out
    more than twice the shares, twice, multiplies them. */
module WithdrawalLimits {
  import opened Wrappers
  import opened RealArithmetic
  import opened Schedules
  import opened WithdrawalPaths

  ghost predicate Positive(prices: seq<real>) {
    forall k :: 0 <= k < |prices| ==> 0.0 < prices[k]
  }

  /** The path that the simulator computes for the input at the given prices. */
  function PathOf(p: Params, prices: seq<real>): Path
    requires |prices| == NDays(p)
  {
    Path(p.iniDep, prices, seq(NDays(p), day requires 0 <= day => AddDepOn(p, day)),
      seq(NDays(p), day requires 0 <= day => WithDrawOn(p, day)))
  }

  /** Everything paid in before the given day. */
  function PaidIn(p: Params, day: nat): real {
    p.iniDep + Deposits(p, day)
  }

  /** Two withdrawals happen before the given day and after money was paid in. */
  ghost predicate WithdrawsTwice(p: Params, day: int) {
    exists a: nat, b: nat :: a < b < day && Withdraws(p, a) && Withdraws(p, b) && 0.0 < PaidIn(p, a)
  }

  /** At whatever prices, the shares are never more than under buy and hold. */
  ghost predicate NeverAhead(p: Params) {
    forall prices, n: nat :: |prices| == NDays(p) && Positive(prices) && n < NDays(p) ==>
      PathOf(p, prices).Shares(n) <= PathOf(p, prices).Held(n)
  }

  /** At whatever prices that never fall, invested plus withdrawn value is never more than under buy and hold. */
  ghost predicate NeverBeatsHolding(p: Params) {
    forall prices, n: nat :: |prices| == NDays(p) && Positive(prices) && Rising(PathOf(p, prices)) && n < NDays(p) ==>
      PathOf(p, prices).Value(n) + PathOf(p, prices).Withdrawn(n) <= PathOf(p, prices).HeldValue(n)
  }

  lemma {:induction false} DepositsGrow(p: Params, m: nat, n: nat)
    requires Accepted(p) && m <= n
    ensures 0.0 <= Deposits(p, m) <= Deposits(p, n)
    decreases n
  {
    if n > 0 {
      DepositsGrow(p, if m < n then m else n - 1, n - 1);
    }
  }

  /** There are shares to hold exactly when something was paid in. */
  lemma {:induction false} HeldSign(p: Params, prices: seq<real>, n: nat)
    requires Accepted(p) && |prices| == NDays(p) && Positive(prices) && n < NDays(p)
    ensures 0.0 <= PathOf(p, prices).Held(n)
    ensures PathOf(p, prices).Held(n) == 0.0 <==> PaidIn(p, n + 1) == 0.0
  {
    DepositsGrow(p, n, n + 1);
    if n == 0 {
      NothingOnDayZero(p);
      assert Deposits(p, 1) == Deposits(p, 0) + AddDepOn(p, 0);
    } else {
      HeldSign(p, prices, n - 1);
      QuotientSign(AddDepOn(p, n), prices[n]);
    }
  }

  /** No withdrawal up to the day took anything out. */
  ghost predicate Untouched(p: Params, n: nat) {
    forall a: nat :: a <= n && Withdraws(p, a) ==> PaidIn(p, a) == 0.0
  }

  /** One effective withdrawal, of whatever percentage, never leaves more than buy and hold. */
  lemma {:induction false} OneWithdrawalStaysBehind(p: Params, prices: seq<real>, day: int, n: nat)
    requires Accepted(p) && |prices| == NDays(p) && Positive(prices) && n < day <= NDays(p)
    requires !WithdrawsTwice(p, day)
    ensures PathOf(p, prices).Shares(n) <= PathOf(p, prices).Held(n)
    ensures Untouched(p, n) ==> PathOf(p, prices).Shares(n) == PathOf(p, prices).Held(n)
  {
    var path := PathOf(p, prices);
    if n > 0 {
      OneWithdrawalStaysBehind(p, prices, day, n - 1);
      HeldSign(p, prices, n - 1);
      if Withdraws(p, n) {
        UntouchedBefore(p, day, n);
        ProductSign(path.Shares(n - 1), path.w[n]);
      }
    }
  }

  lemma {:induction false} UntouchedBefore(p: Params, day: int, n: nat)
    requires Accepted(p) && !WithdrawsTwice(p, day) && 0 < n < day && Withdraws(p, n)
    ensures Untouched(p, n - 1)
  {
    forall a: nat | a <= n - 1 && Withdraws(p, a) ensures PaidIn(p, a) == 0.0 {
      DepositsGrow(p, a, n);
    }
  }

  // ---------- A price path on which two withdrawals overtake ----------

  /** The first withdrawal after money was paid in, and the one after it. */
  ghost predicate FirstTwo(p: Params, a: nat, b: nat) {
    && 0 < a < b && Withdraws(p, a) && Withdraws(p, b) && 0.0 < PaidIn(p, a)
    && Untouched(p, a - 1)
    && forall k :: a < k < b ==> !Withdraws(p, k)
  }

  lemma {:induction false} NextWithdrawal(p: Params, a: nat, b: nat) returns (next: nat)
    requires a < b && Withdraws(p, b)
    ensures a < next <= b && Withdraws(p, next) && forall k :: a < k < next ==> !Withdraws(p, k)
    decreases b
  {
    if k :| a < k < b && Withdraws(p, k) {
      next := NextWithdrawal(p, a, k);
    } else {
      next := b;
    }
  }

  lemma {:induction false} FirstEffective(p: Params, a: nat) returns (first: nat)
    requires Accepted(p) && Withdraws(p, a) && 0.0 < PaidIn(p, a)
    ensures 0 < first <= a && Withdraws(p, first) && 0.0 < PaidIn(p, first) && Untouched(p, first - 1)
  {
    FirstPeriodEnd(p.withDrawFreq, a);
    if k: nat :| k < a && Withdraws(p, k) && PaidIn(p, k) != 0.0 {
      DepositsGrow(p, 0, k);
      first := FirstEffective(p, k);
    } else {
      first := a;
    }
  }

  /** Prices stand at 1, jump on day a and stand again until day b. */
  ghost predicate Jumps(path: Path, a: nat, b: nat, high: real) {
    && path.Valid() && b < |path.prices| && 0.0 < high
    && forall k :: 0 <= k <= b ==> path.prices[k] == if k < a then 1.0 else high
  }

  /** On days a and b the part w is withdrawn; before a nothing is held at withdrawals, and none lies between. */
  ghost predicate TakesTwice(path: Path, a: nat, b: nat, w: real) {
    && path.Valid() && 0 < a < b < |path.prices| && path.w[a] == path.w[b] == w
    && (forall k :: 0 < k < a && path.w[k] != 0.0 ==> path.Deposited(k - 1) == 0.0)
    && forall k :: a < k < b ==> path.w[k] == 0.0
  }

  lemma {:induction false} BeforeJump(path: Path, a: nat, b: nat, w: real, high: real, n: nat)
    requires TakesTwice(path, a, b, w) && Jumps(path, a, b, high) && n < a
    ensures path.Held(n) == path.Shares(n) == path.Deposited(n)
  {
    if n > 0 { BeforeJump(path, a, b, w, high, n - 1); }
  }

  /** The shares bought from day a to day n. */
  ghost function BoughtSince(path: Path, a: nat, n: nat): real
    requires path.Valid() && n < |path.prices|
  {
    if n < a then 0.0 else (if n == 0 then 0.0 else BoughtSince(path, a, n - 1)) + path.dep[n] / path.prices[n]
  }

  lemma {:induction false} HeldSince(path: Path, a: nat, n: nat)
    requires path.Valid() && 0 < a && a - 1 <= n < |path.prices|
    ensures path.Held(n) == path.Held(a - 1) + BoughtSince(path, a, n)
  {
    if n >= a { HeldSince(path, a, n - 1); }
  }

  lemma Bought(e: real, d: real, p: real, money: real)
    requires p != 0.0 && e * p == money
    ensures (e + d / p) * p == money + d
  {
    assert d / p * p == d;
  }

  /** At an unchanged price the shares bought are worth what was paid for them. */
  lemma {:induction false} BoughtForMoney(path: Path, a: nat, n: nat, price: real)
    requires path.Valid() && 0 < a && a - 1 <= n < |path.prices| && price != 0.0
    requires forall k :: a <= k <= n ==> path.prices[k] == price
    ensures BoughtSince(path, a, n) * price == path.Deposited(n) - path.Deposited(a - 1)
  {
    if n >= a {
      BoughtForMoney(path, a, n - 1, price);
      Bought(BoughtSince(path, a, n - 1), path.dep[n], price, path.Deposited(n - 1) - path.Deposited(a - 1));
    }
  }

  lemma {:induction false} SharesBetween(path: Path, a: nat, b: nat, w: real, high: real, n: nat)
    requires TakesTwice(path, a, b, w) && Jumps(path, a, b, high) && a <= n < b
    ensures path.Shares(n) == path.Held(n) - path.Deposited(a - 1) * w
  {
    if n == a {
      BeforeJump(path, a, b, w, high, a - 1);
    } else {
      SharesBetween(path, a, b, w, high, n - 1);
      assert path.Shares(n - 1) * path.w[n] == 0.0;
    }
  }

  lemma LittleBought(path: Path, a: nat, b: nat, w: real, high: real, x: real)
    requires TakesTwice(path, a, b, w) && Jumps(path, a, b, high)
    requires path.Deposited(b - 1) - path.Deposited(a - 1) < high * x
    ensures path.Held(b - 1) - path.Deposited(a - 1) < x
  {
    BeforeJump(path, a, b, w, high, a - 1);
    HeldSince(path, a, b - 1);
    BoughtForMoney(path, a, b - 1, high);
    CheaperIsLess(BoughtSince(path, a, b - 1), x, high, path.Deposited(b - 1) - path.Deposited(a - 1));
  }

  lemma CheaperIsLess(e: real, x: real, price: real, money: real)
    requires 0.0 < price && e * price == money && money < price * x
    ensures e < x
  {
    if x <= e { ProductMonotone(x, e, price); }
  }

  /** The second withdrawal, in plain numbers. */
  lemma SecondDay(h0: real, s0: real, paid: real, bought: real, w: real, x: real, h: real, s: real)
    requires 2.0 < w && h == h0 + bought && s == s0 + bought - s0 * w
    requires s0 == h0 - paid * w && x == paid * (w - 2.0) && h0 - paid < x
    ensures s > h
  {
    var e := h0 - paid;
    ProductSign(x - e, w);
    assert s0 == paid + e - paid * w == e - x - paid;
    TwiceTaken(x, e, paid, w);
  }

  lemma TwiceTaken(x: real, e: real, paid: real, w: real)
    requires x == paid * (w - 2.0)
    ensures (e - x - paid) - (e - x - paid) * w == (paid + e) + (x - e) * w
  {
  }

  /** A price at which the deposits between the withdrawals buy less than the first withdrawal's excess. */
  lemma HighEnough(deposits: real, paid: real, w: real) returns (high: real, x: real)
    requires 0.0 <= deposits && 0.0 < paid && 2.0 < w
    ensures x == paid * (w - 2.0) && 1.0 <= high && deposits < high * x
  {
    x := paid * (w - 2.0);
    ProductSign(paid, w - 2.0);
    high := deposits / x + 1.0;
    QuotientSign(deposits, x);
    assert high * x == deposits / x * x + x == deposits + x;
  }

  lemma SecondWithdrawalOvertakes(path: Path, a: nat, b: nat, w: real, high: real, paid: real, x: real)
    requires TakesTwice(path, a, b, w) && Jumps(path, a, b, high) && 2.0 < w && 0.0 < paid == path.Deposited(a - 1)
    requires x == paid * (w - 2.0) && path.Deposited(b - 1) - paid < high * x
    ensures path.Shares(b) > path.Held(b)
  {
    LittleBought(path, a, b, w, high, x);
    SharesBetween(path, a, b, w, high, b - 1);
    SecondDayOn(path, b, w, paid, x);
  }

  lemma SecondDayOn(path: Path, b: nat, w: real, paid: real, x: real)
    requires path.Valid() && 0 < b < |path.prices| && 2.0 < w == path.w[b]
    requires path.Shares(b - 1) == path.Held(b - 1) - paid * w
    requires x == paid * (w - 2.0) && path.Held(b - 1) - paid < x
    ensures path.Shares(b) > path.Held(b)
  {
    SecondDay(path.Held(b - 1), path.Shares(b - 1), paid, path.dep[b] / path.prices[b], w, x, path.Held(b), path.Shares(b));
  }

  lemma {:induction false} DepositedIsPaidIn(p: Params, prices: seq<real>, n: nat)
    requires |prices| == NDays(p) && PathOf(p, prices).Valid() && n < NDays(p)
    ensures PathOf(p, prices).Deposited(n) == PaidIn(p, n + 1)
  {
    if n == 0 {
      NothingOnDayZero(p);
      assert Deposits(p, 1) == Deposits(p, 0) + AddDepOn(p, 0);
    } else {
      DepositedIsPaidIn(p, prices, n - 1);
    }
  }

  lemma {:induction false} FirstTwoTakeTwice(p: Params, prices: seq<real>, a: nat, b: nat)
    requires |prices| == NDays(p) && Positive(prices) && FirstTwo(p, a, b) && b < NDays(p)
    ensures TakesTwice(PathOf(p, prices), a, b, p.withDrawPerc / 100.0)
  {
    var path := PathOf(p, prices);
    forall k | 0 < k < a && path.w[k] != 0.0 ensures path.Deposited(k - 1) == 0.0 {
      DepositedIsPaidIn(p, prices, k - 1);
      assert Withdraws(p, k);
    }
  }

  lemma {:induction false} FirstTwoExist(p: Params, day: int) returns (a: nat, b: nat)
    requires Accepted(p) && WithdrawsTwice(p, day)
    ensures FirstTwo(p, a, b) && b < day
  {
    var a0: nat, b0: nat :| a0 < b0 < day && Withdraws(p, a0) && Withdraws(p, b0) && 0.0 < PaidIn(p, a0);
    a := FirstEffective(p, a0);
    b := NextWithdrawal(p, a, b0);
  }

  /** Prices that never fall, at which more than 200 percent withdrawn twice before the given day gives more shares than
      buy and hold on day n, and more money on the day after. */
  lemma {:induction false} TwoWithdrawalsOvertake(p: Params, day: int) returns (prices: seq<real>, n: nat)
    requires Accepted(p) && 200.0 < p.withDrawPerc && day <= NDays(p) && WithdrawsTwice(p, day)
    ensures |prices| == NDays(p) && Positive(prices) && n < day && Rising(PathOf(p, prices))
    ensures PathOf(p, prices).Shares(n) > PathOf(p, prices).Held(n)
    ensures var path := PathOf(p, prices);
      n + 1 < NDays(p) ==> path.Value(n + 1) + path.Withdrawn(n + 1) > path.HeldValue(n + 1)
  {
    var a, b := FirstTwoExist(p, day);
    var w, paid := p.withDrawPerc / 100.0, PaidIn(p, a);
    DepositsGrow(p, a, b);
    var high, x := HighEnough(PaidIn(p, b) - paid, paid, w);
    prices := seq(NDays(p), day => if day < a then 1.0 else if day <= b then high else high + 1.0);
    n := b;
    OvertakesAt(p, prices, a, b, w, high, paid, x);
    if b + 1 < NDays(p) {
      FirstTwoTakeTwice(p, prices, a, b);
      MoreSharesEarnMore(PathOf(p, prices), a, b, w, high);
    }
  }

  lemma {:induction false} OvertakesAt(p: Params, prices: seq<real>, a: nat, b: nat, w: real, high: real, paid: real, x: real)
    requires 2.0 < w == p.withDrawPerc / 100.0 && |prices| == NDays(p) && FirstTwo(p, a, b) && b < NDays(p)
    requires Positive(prices) && Jumps(PathOf(p, prices), a, b, high)
    requires paid == PaidIn(p, a) && x == paid * (w - 2.0) && PaidIn(p, b) - paid < high * x
    ensures PathOf(p, prices).Shares(b) > PathOf(p, prices).Held(b)
  {
    FirstTwoTakeTwice(p, prices, a, b);
    DepositedIsPaidIn(p, prices, a - 1);
    DepositedIsPaidIn(p, prices, b - 1);
    SecondWithdrawalOvertakes(PathOf(p, prices), a, b, w, high, paid, x);
  }

  /** Until day b withdrawing has forgone nothing; then the extra shares gain. */
  lemma {:induction false} MoreSharesEarnMore(path: Path, a: nat, b: nat, w: real, high: real)
    requires TakesTwice(path, a, b, w) && Jumps(path, a, b, high)
    requires b + 1 < |path.prices| && path.prices[b + 1] > high && path.Shares(b) > path.Held(b)
    ensures path.Value(b + 1) + path.Withdrawn(b + 1) > path.HeldValue(b + 1)
  {
    BeforeJump(path, a, b, w, high, a - 1);
    NothingForgone(path, b);
    var gap, change := ForgoneStep(path, b + 1);
    ProductStrictlyMonotone(gap, 0.0, change);
    HoldingAdvantage(path, b + 1);
  }

  /** Withdrawing stays behind buy and hold at all prices if and only if at most 200 percent are withdrawn at a time or
      no two withdrawals happen after money was paid in. */
  lemma NeverAheadIff(p: Params)
    requires Accepted(p)
    ensures NeverAhead(p) <==> p.withDrawPerc <= 200.0 || !WithdrawsTwice(p, NDays(p))
  {
    if p.withDrawPerc > 200.0 && WithdrawsTwice(p, NDays(p)) {
      var prices, n := TwoWithdrawalsOvertake(p, NDays(p));
    } else {
      forall prices, n: nat | |prices| == NDays(p) && Positive(prices) && n < NDays(p)
        ensures PathOf(p, prices).Shares(n) <= PathOf(p, prices).Held(n)
      {
        StaysBehind(p, prices, NDays(p), n);
      }
    }
  }

  lemma {:induction false} StaysBehind(p: Params, prices: seq<real>, day: int, n: nat)
    requires Accepted(p) && |prices| == NDays(p) && Positive(prices) && n < day <= NDays(p)
    requires p.withDrawPerc <= 200.0 || !WithdrawsTwice(p, day)
    ensures PathOf(p, prices).Shares(n) <= PathOf(p, prices).Held(n)
  {
    if p.withDrawPerc <= 200.0 {
      SharesDominated(PathOf(p, prices), n);
    } else {
      OneWithdrawalStaysBehind(p, prices, day, n);
    }
  }

  /** Counting what was withdrawn, withdrawing never beats holding at prices that never fall, if and only if at most 200
      percent are withdrawn at a time or no two withdrawals happen before the last day and after money was paid in. */
  lemma NeverBeatsHoldingIff(p: Params)
    requires Accepted(p)
    ensures NeverBeatsHolding(p) <==> p.withDrawPerc <= 200.0 || !WithdrawsTwice(p, NDays(p) - 1)
  {
    if p.withDrawPerc > 200.0 && WithdrawsTwice(p, NDays(p) - 1) {
      var prices, n := TwoWithdrawalsOvertake(p, NDays(p) - 1);
    } else {
      forall prices, n: nat | |prices| == NDays(p) && Positive(prices) && Rising(PathOf(p, prices)) && n < NDays(p)
        ensures PathOf(p, prices).Value(n) + PathOf(p, prices).Withdrawn(n) <= PathOf(p, prices).HeldValue(n)
      {
        forall k: nat | k < n ensures PathOf(p, prices).Shares(k) <= PathOf(p, prices).Held(k) {
          StaysBehind(p, prices, NDays(p) - 1, k);
        }
        WithdrawingAgainstHolding(PathOf(p, prices), n);
      }
    }
  }

  // ---------- The condition in numbers ----------

  ghost function Count(on: nat -> bool, n: nat): nat {
    if n == 0 then 0 else Count(on, n - 1) + (if on(n - 1) then 1 else 0)
  }

  lemma {:induction false} CountedOnce(on: nat -> bool, n: nat)
    ensures 1 <= Count(on, n) <==> exists a: nat :: a < n && on(a)
  {
    if n > 0 { CountedOnce(on, n - 1); }
  }

  lemma {:induction false} CountedTwice(on: nat -> bool, n: nat)
    ensures 2 <= Count(on, n) <==> exists a: nat, b: nat :: a < b < n && on(a) && on(b)
  {
    if n > 0 {
      CountedTwice(on, n - 1);
      CountedOnce(on, n - 1);
    }
  }

  lemma {:induction false} PeriodEndsAreCounted(freq: int, start: int, on: nat -> bool, n: nat)
    requires forall day: nat :: on(day) == (day >= start * 21 - 1 && IsEndOfPeriod(day, freq))
    ensures Count(on, n) == PeriodEnds(freq, start, n)
  {
    if n > 0 { PeriodEndsAreCounted(freq, start, on, n - 1); }
  }

  lemma {:induction false} NoDepositBefore(p: Params, n: nat)
    requires 1 <= p.addDepFreq && n < 21 * p.addDepFreq
    ensures Deposits(p, n) == 0.0
  {
    if n > 0 {
      NoDepositBefore(p, n - 1);
      DivisionUnique(n - 1, 21 * p.addDepFreq, 0, n - 1);
    }
  }

  lemma {:induction false} FirstDeposit(p: Params)
    requires Accepted(p)
    ensures p.addDepFreq <= p.addDepEnd ==> Deposits(p, 21 * p.addDepFreq) == p.addDepVal
    ensures p.addDepFreq > p.addDepEnd ==> Deposits(p, 21 * p.addDepFreq) == 0.0
  {
    var last := 21 * p.addDepFreq - 1;
    NoDepositBefore(p, last);
    DivisionUnique(last, 21 * p.addDepFreq, 0, last);
    assert Deposits(p, last + 1) == Deposits(p, last) + AddDepOn(p, last);
  }

  /** Without an initial deposit, money comes in with the first additional deposit, if there is one. */
  lemma {:induction false} PaidInWithoutInitial(p: Params, n: nat)
    requires Accepted(p) && p.iniDep == 0.0
    ensures 0.0 < PaidIn(p, n) <==> 0.0 < p.addDepVal && p.addDepFreq <= p.addDepEnd && 21 * p.addDepFreq <= n
  {
    FirstDeposit(p);
    if n < 21 * p.addDepFreq {
      NoDepositBefore(p, n);
    } else {
      DepositsGrow(p, 21 * p.addDepFreq, n);
      if p.addDepVal == 0.0 { NoDepositValue(p, n); }
      if p.addDepFreq > p.addDepEnd { NoDepositsAfterEnd(p, n); NoDepositBefore(p, 21 * p.addDepEnd); }
    }
  }

  lemma {:induction false} NoDepositValue(p: Params, n: nat)
    requires p.addDepVal == 0.0
    ensures Deposits(p, n) == 0.0
  {
    if n > 0 { NoDepositValue(p, n - 1); }
  }

  /** The first month at whose end a withdrawal finds something, if there ever is one. */
  function FirstPaidMonth(p: Params): Option<int> {
    if 0.0 < p.iniDep then Some(p.withDrawStart)
    else if 0.0 < p.addDepVal && p.addDepFreq <= p.addDepEnd then Some(Max(p.withDrawStart, p.addDepFreq + 1))
    else None
  }

  lemma MonthEnd(freq: int, day: nat)
    requires IsEndOfPeriod(day, freq)
    ensures (day + 1) % 21 == 0
  {
    var d := 21 * freq;
    QuotientStep(day, d);
    var q := (day + 1) / d;
    assert day + 1 == d * q == 21 * (freq * q) by { assert day + 1 == d * ((day + 1) / d) + (day + 1) % d; }
    DivisionUnique(day + 1, 21, freq * q, 0);
  }

  /** A withdrawal finds something exactly if it is made from the first paid month on. */
  lemma {:induction false} EffectiveIff(p: Params, day: nat)
    requires Accepted(p)
    ensures Withdraws(p, day) && 0.0 < PaidIn(p, day) <==>
      FirstPaidMonth(p).Some? && day >= FirstPaidMonth(p).value * 21 - 1 && IsEndOfPeriod(day, p.withDrawFreq)
  {
    if IsEndOfPeriod(day, p.withDrawFreq) {
      MonthEnd(p.withDrawFreq, day);
      if 0.0 < p.iniDep { DepositsGrow(p, 0, day); } else { PaidInWithoutInitial(p, day); }
      MonthReached(day, p.withDrawStart, p.addDepFreq);
    }
  }

  /** At a month end, day 21 f has been passed exactly if month f + 1 has ended. */
  lemma MonthReached(day: nat, start: int, f: int)
    requires (day + 1) % 21 == 0
    ensures day >= start * 21 - 1 && 21 * f <= day <==> day >= Max(start, f + 1) * 21 - 1
  {
  }

  /** The condition on the schedule as a count that can be made before the simulation: of the whole withdrawal periods
      before the day, at least two end from the first paid month on. */
  lemma {:induction false} WithdrawsTwiceIff(p: Params, day: nat)
    requires Accepted(p)
    ensures WithdrawsTwice(p, day) <==>
      && 1 <= p.withDrawFreq && FirstPaidMonth(p).Some?
      && day / (21 * p.withDrawFreq) - (FirstPaidMonth(p).value - 1) / p.withDrawFreq >= 2
  {
    if p.withDrawFreq >= 1 && FirstPaidMonth(p).Some? {
      var month := FirstPaidMonth(p).value;
      var on: nat -> bool := (a: nat) => a >= month * 21 - 1 && IsEndOfPeriod(a, p.withDrawFreq);
      PeriodEndsCount(p.withDrawFreq, month, day);
      PeriodEndsAreCounted(p.withDrawFreq, month, on, day);
      CountedTwice(on, day);
      TwiceIs(p, on, day);
    } else {
      forall a: nat ensures !(Withdraws(p, a) && 0.0 < PaidIn(p, a)) { EffectiveIff(p, a); }
    }
  }

  lemma TwiceIs(p: Params, on: nat -> bool, day: nat)
    requires Accepted(p) && FirstPaidMonth(p).Some?
    requires forall a: nat :: on(a) == (a >= FirstPaidMonth(p).value * 21 - 1 && IsEndOfPeriod(a, p.withDrawFreq))
    ensures WithdrawsTwice(p, day) <==> exists a: nat, b: nat :: a < b < day && on(a) && on(b)
  {
    forall a: nat ensures on(a) <==> Withdraws(p, a) && 0.0 < PaidIn(p, a) { EffectiveIff(p, a); }
    forall a: nat, b: nat | a < b && Withdraws(p, a) && Withdraws(p, b) && 0.0 < PaidIn(p, a) ensures 0.0 < PaidIn(p, b) {
      DepositsGrow(p, a, b);
    }
    if a: nat, b: nat :| a < b < day && Withdraws(p, a) && Withdraws(p, b) && 0.0 < PaidIn(p, a) {
      assert on(a) && on(b);
    }
    if a: nat, b: nat :| a < b < day && on(a) && on(b) {
      assert Withdraws(p, a) && Withdraws(p, b) && 0.0 < PaidIn(p, a);
    }
  }
}
