/** The inputs of the withdrawal simulator, and its deposit and withdrawal schedules
    (src/rqcoresrv/src/webapps/withdrawal_simulator/withdrawal_simulator.ts). */
module Schedules {
  import opened RealArithmetic
  import opened Wrappers

  // ---------- Inputs ----------

  /** The numbers typed in; addDepEnd may be left empty. */
  datatype RawInputs = RawInputs(
    simLength: real, stdDev: real, nSimulations: real, iniDep: real, addDepFreq: real, addDepVal: real,
    addDepEnd: Option<real>, withDrawStart: real, withDrawFreq: real, withDrawPerc: real)

  /** Lengths and frequencies are whole: years for simLength, months for the others. */
  datatype Params = Params(
    simLength: int, nSimulations: int, iniDep: real, addDepFreq: int, addDepVal: real, addDepEnd: int,
    withDrawStart: int, withDrawFreq: int, withDrawPerc: real)

  predicate IsWhole(x: real) {
    x.Floor as real == x
  }

  /** The clamps and the error condition of the driver. */
  function Accept(raw: RawInputs): Option<Params> {
    var simLength := if raw.simLength > 50.0 then 50.0 else raw.simLength;
    var addDepEnd := if raw.addDepEnd.Some? then raw.addDepEnd.value else simLength * 12.0;
    var positiveFreq := if raw.addDepFreq == 0.0 then 12.0 else raw.addDepFreq;
    var addDepFreq := if positiveFreq > 60.0 then 60.0 else positiveFreq;
    var start := if raw.withDrawStart > 600.0 then 600.0 else raw.withDrawStart;
    var freq, perc := raw.withDrawFreq, raw.withDrawPerc;
    var isError :=
      || (freq + perc + start > 0.0 && freq * perc * start == 0.0)
      || perc < 0.0
      || !IsWhole(freq) || freq < 0.0
      || !IsWhole(start) || start < 0.0
      || addDepEnd > simLength * 12.0 || !IsWhole(addDepEnd) || addDepEnd < 0.0
      || raw.addDepVal < 0.0
      || !IsWhole(addDepFreq) || addDepFreq < 0.0
      || raw.iniDep < 0.0
      || raw.stdDev <= 0.0
      || raw.nSimulations < 1.0 || !IsWhole(raw.nSimulations)
      || !IsWhole(simLength);
    if isError then None
    else Some(Params(simLength.Floor, raw.nSimulations.Floor, raw.iniDep, addDepFreq.Floor, raw.addDepVal, addDepEnd.Floor,
      start.Floor, freq.Floor, perc))
  }

  ghost predicate Accepted(p: Params) {
    && 0 <= p.simLength <= 50 && 1 <= p.nSimulations
    && 0.0 <= p.iniDep && 0.0 <= p.addDepVal
    && 1 <= p.addDepFreq <= 60
    && 0 <= p.addDepEnd <= 12 * p.simLength
    && ((p.withDrawStart == 0 && p.withDrawFreq == 0 && p.withDrawPerc == 0.0)
        || (1 <= p.withDrawStart <= 600 && 1 <= p.withDrawFreq && 0.0 < p.withDrawPerc))
  }

  /** What the driver lets through to the simulation; nothing bounds the withdrawal percentage from above. */
  lemma AcceptedInputs(raw: RawInputs)
    requires Accept(raw).Some?
    ensures Accepted(Accept(raw).value)
  {
    var p := Accept(raw).value;
    var start := if raw.withDrawStart > 600.0 then 600.0 else raw.withDrawStart;
    NonZeroProduct(raw.withDrawFreq, raw.withDrawPerc, start);
  }

  lemma NonZeroProduct(x: real, y: real, z: real)
    ensures x * y * z != 0.0 ==> x != 0.0 && y != 0.0 && z != 0.0
  {
  }

  /** What a user types for given parameters. */
  function Typed(p: Params, stdDev: real): RawInputs {
    RawInputs(p.simLength as real, stdDev, p.nSimulations as real, p.iniDep, p.addDepFreq as real, p.addDepVal,
      Some(p.addDepEnd as real), p.withDrawStart as real, p.withDrawFreq as real, p.withDrawPerc)
  }

  /** Every acceptable input reaches the simulation as it was typed. */
  lemma EveryAcceptedInput(p: Params, stdDev: real)
    requires Accepted(p) && 0.0 < stdDev
    ensures Accept(Typed(p, stdDev)) == Some(p)
  {
    var raw := Typed(p, stdDev);
    if p.withDrawFreq >= 1 { PositiveProduct(raw.withDrawFreq, raw.withDrawPerc, raw.withDrawStart); }
  }

  lemma PositiveProduct(x: real, y: real, z: real)
    requires 0.0 < x && 0.0 < y && 0.0 < z
    ensures x * y * z != 0.0
  {
    ProductSign(x, y);
    ProductSign(x * y, z);
  }

  /** Amounts and the percentage arrive as typed, whole numbers too except for the caps of 50 years, 60 and 600 months;
      an empty or zero frequency stands for 12 months and an empty deposit end for the whole length. */
  lemma AcceptedValues(raw: RawInputs)
    requires Accept(raw).Some?
    ensures var p := Accept(raw).value;
      && p.iniDep == raw.iniDep && p.addDepVal == raw.addDepVal && p.withDrawPerc == raw.withDrawPerc
      && p.nSimulations as real == raw.nSimulations && p.withDrawFreq as real == raw.withDrawFreq
      && p.simLength as real == Least(raw.simLength, 50.0)
      && p.withDrawStart as real == Least(raw.withDrawStart, 600.0)
      && p.addDepFreq as real == (if raw.addDepFreq == 0.0 then 12.0 else Least(raw.addDepFreq, 60.0))
      && p.addDepEnd as real == (if raw.addDepEnd.Some? then raw.addDepEnd.value else 12.0 * p.simLength as real)
  {
  }

  function Least(x: real, y: real): (r: real)
    ensures r <= x && r <= y && r in {x, y}
  {
    if x <= y then x else y
  }

  // ---------- Schedules ----------

  function NDays(p: Params): int {
    p.simLength * 252
  }

  /** The last of every freq months of 21 days; without a frequency no day is. */
  predicate IsEndOfPeriod(day: nat, freq: int) {
    freq > 0 && day % (21 * freq) == 21 * freq - 1
  }

  function AddDepOn(p: Params, day: nat): real {
    if day < p.addDepEnd * 21 && IsEndOfPeriod(day, p.addDepFreq) then p.addDepVal else 0.0
  }

  predicate Withdraws(p: Params, day: nat) {
    day >= p.withDrawStart * 21 - 1 && IsEndOfPeriod(day, p.withDrawFreq)
  }

  function WithDrawOn(p: Params, day: nat): real {
    if Withdraws(p, day) then p.withDrawPerc / 100.0 else 0.0
  }

  /** Nothing is scheduled on day 0, where the share loops have not begun. */
  lemma NothingOnDayZero(p: Params)
    ensures AddDepOn(p, 0) == 0.0 && WithDrawOn(p, 0) == 0.0
  {
    assert !IsEndOfPeriod(0, p.addDepFreq) && !IsEndOfPeriod(0, p.withDrawFreq);
  }

  // ---------- Counting the scheduled days ----------

  /** The days before day n, from the end of month start on, that end a period. */
  function PeriodEnds(freq: int, start: int, n: nat): nat {
    if n == 0 then 0
    else PeriodEnds(freq, start, n - 1) + (if n - 1 >= start * 21 - 1 && IsEndOfPeriod(n - 1, freq) then 1 else 0)
  }

  lemma {:induction false} DivisionUnique(x: int, d: int, q: int, r: int)
    requires 0 < d && x == d * q + r && 0 <= r < d
    ensures x / d == q && x % d == r
  {
    var k := x / d - q;
    assert d * k == r - x % d by { assert x == d * (x / d) + x % d; assert d * (x / d - q) == d * (x / d) - d * q; }
    assert k >= 1 ==> d * k >= d;
    assert k <= -1 ==> d * k <= -d;
  }

  /** The quotient grows by one exactly at the multiples. */
  lemma {:induction false} QuotientStep(n: nat, d: int)
    requires 0 < d
    ensures n % d == d - 1 <==> (n + 1) % d == 0
    ensures (n + 1) / d == n / d + (if n % d == d - 1 then 1 else 0)
  {
    var q, r := n / d, n % d;
    assert n == d * q + r;
    if r + 1 < d {
      DivisionUnique(n + 1, d, q, r + 1);
    } else {
      assert d * (q + 1) == d * q + d;
      DivisionUnique(n + 1, d, q + 1, 0);
    }
  }

  /** A multiple m of freq months has reached month start exactly if m exceeds the periods that end before it. */
  lemma {:induction false} MultipleReachesStart(freq: int, start: int, m: int)
    requires 1 <= freq
    ensures freq * m >= start <==> m > (start - 1) / freq
  {
    var b, r := (start - 1) / freq, (start - 1) % freq;
    assert start - 1 == freq * b + r;
    if m > b {
      assert freq * m >= freq * (b + 1) == freq * b + freq;
    } else {
      assert freq * m <= freq * b;
    }
  }

  function Max(x: int, y: int): int {
    if x < y then y else x
  }

  /** Among the first n days, period ends are counted by two quotients. */
  lemma {:induction false} PeriodEndsCount(freq: int, start: int, n: nat)
    requires 1 <= freq && 1 <= start
    ensures PeriodEnds(freq, start, n) == Max(0, n / (21 * freq) - (start - 1) / freq)
  {
    var d, b := 21 * freq, (start - 1) / freq;
    if n == 0 {
      DivisionUnique(0, d, 0, 0);
      MultipleReachesStart(freq, start, 0);
    } else {
      PeriodEndsCount(freq, start, n - 1);
      QuotientStep(n - 1, d);
      if IsEndOfPeriod(n - 1, freq) { PeriodReachesStart(freq, start, n); }
    }
  }

  lemma {:induction false} PeriodReachesStart(freq: int, start: int, n: nat)
    requires 0 < n && IsEndOfPeriod(n - 1, freq)
    ensures n - 1 >= start * 21 - 1 <==> n / (21 * freq) > (start - 1) / freq
  {
    var d := 21 * freq;
    var m := n / d;
    QuotientStep(n - 1, d);
    assert n == d * m == 21 * (freq * m) by { assert n == d * (n / d) + n % d; }
    MultipleReachesStart(freq, start, m);
  }

  /** Over the whole simulation withdrawals happen on max(0, 12 L / f - (s - 1) / f) days, in whole quotients. */
  lemma {:induction false} WithdrawalCount(p: Params)
    requires Accepted(p) && 1 <= p.withDrawFreq
    ensures PeriodEnds(p.withDrawFreq, p.withDrawStart, NDays(p)) ==
      Max(0, 12 * p.simLength / p.withDrawFreq - (p.withDrawStart - 1) / p.withDrawFreq)
  {
    PeriodEndsCount(p.withDrawFreq, p.withDrawStart, NDays(p));
    CancelTwentyOne(12 * p.simLength, p.withDrawFreq);
  }

  lemma {:induction false} CancelTwentyOne(x: int, d: int)
    requires 1 <= d
    ensures 21 * x / (21 * d) == x / d
  {
    var q, r := x / d, x % d;
    assert x == d * q + r;
    assert 21 * x == (21 * d) * q + 21 * r by { assert 21 * (d * q) == (21 * d) * q; }
    DivisionUnique(21 * x, 21 * d, q, 21 * r);
  }

  // ---------- The total of the deposits ----------

  function Deposits(p: Params, n: nat): real {
    if n == 0 then 0.0 else Deposits(p, n - 1) + AddDepOn(p, n - 1)
  }

  /** totalDeposit as the simulation computes it. */
  function TotalDeposit(p: Params): real
    requires p.addDepFreq != 0
  {
    p.iniDep + (p.addDepEnd / p.addDepFreq) as real * p.addDepVal
  }

  lemma {:induction false} DepositsCounted(p: Params, n: nat)
    requires 1 <= p.addDepFreq && n <= 21 * p.addDepEnd
    ensures Deposits(p, n) == PeriodEnds(p.addDepFreq, 1, n) as real * p.addDepVal
  {
    if n > 0 {
      DepositsCounted(p, n - 1);
      if IsEndOfPeriod(n - 1, p.addDepFreq) {
        OneMoreDeposit(p.addDepFreq, n, p.addDepVal);
      }
    }
  }

  lemma {:induction false} NoDepositsAfterEnd(p: Params, n: nat)
    requires 0 <= 21 * p.addDepEnd <= n
    ensures Deposits(p, n) == Deposits(p, 21 * p.addDepEnd)
  {
    if n > 21 * p.addDepEnd { NoDepositsAfterEnd(p, n - 1); }
  }

  lemma {:induction false} OneMoreDeposit(freq: int, n: nat, value: real)
    requires 0 < n && IsEndOfPeriod(n - 1, freq)
    ensures PeriodEnds(freq, 1, n) as real * value == PeriodEnds(freq, 1, n - 1) as real * value + value
  {
    FirstPeriodEnd(freq, n - 1);
    var c := PeriodEnds(freq, 1, n - 1) as real;
    assert (c + 1.0) * value == c * value + value;
  }

  lemma {:induction false} FirstPeriodEnd(freq: int, day: nat)
    requires IsEndOfPeriod(day, freq)
    ensures 20 <= day
  {
    if day < 21 * freq - 1 { DivisionUnique(day, 21 * freq, 0, day); }
  }

  /** The deposit days before the end of month E number E / f, in whole quotients. */
  lemma {:induction false} DepositCount(freq: int, end: int)
    requires 1 <= freq && 0 <= end
    ensures PeriodEnds(freq, 1, 21 * end) == end / freq
  {
    PeriodEndsCount(freq, 1, 21 * end);
    CancelTwentyOne(end, freq);
    DivisionUnique(0, freq, 0, 0);
    MultipleReachesStart(freq, end + 1, 0);
  }

  /** For every accepted input the announced total is the initial deposit plus all scheduled deposits. */
  lemma {:induction false} TotalDepositIsTheSum(p: Params)
    requires Accepted(p)
    ensures TotalDeposit(p) == p.iniDep + Deposits(p, NDays(p))
  {
    DepositsInAll(p, NDays(p));
  }

  lemma {:induction false} DepositsInAll(p: Params, n: nat)
    requires 1 <= p.addDepFreq && 0 <= 21 * p.addDepEnd <= n
    ensures Deposits(p, n) == (p.addDepEnd / p.addDepFreq) as real * p.addDepVal
  {
    NoDepositsAfterEnd(p, n);
    DepositsUntilEnd(p);
  }

  lemma {:induction false} DepositsUntilEnd(p: Params)
    requires 1 <= p.addDepFreq && 0 <= p.addDepEnd
    ensures Deposits(p, 21 * p.addDepEnd) == (p.addDepEnd / p.addDepFreq) as real * p.addDepVal
  {
    DepositsCounted(p, 21 * p.addDepEnd);
    DepositCount(p.addDepFreq, p.addDepEnd);
  }
}
