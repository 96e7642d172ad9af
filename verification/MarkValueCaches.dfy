/** The cache of live prices and its shared, reference-counted quote stream
    (src/common/memdb/src/mark_value_cache.rs). */
module MarkValueCaches {
  import opened Wrappers
  import opened Orders

  /** A value and the time it was marked. */
  datatype Mark = Mark(value: Price, time: int)

  const UNIX_EPOCH := 0
  const U16_MAX := 65_535

  /** get_mark_timevalue */
  function GetMark(marks: map<string, Mark>, ticker: string): Mark {
    if ticker in marks then marks[ticker] else Mark(NaN, UNIX_EPOCH)
  }

  /** One message of the stream. */
  datatype Update = Update(symbol: string, price: Price, time: int)

  function AfterUpdate(marks: map<string, Mark>, update: Update): map<string, Mark> {
    if update.price.NaN? then marks else marks[update.symbol := Mark(update.price, update.time)]
  }

  function AfterUpdates(marks: map<string, Mark>, updates: seq<Update>): map<string, Mark> {
    if updates == [] then marks else AfterUpdate(AfterUpdates(marks, updates[..|updates| - 1]), updates[|updates| - 1])
  }

  /** Update i is the last one with a price for the ticker. */
  ghost predicate IsLatest(updates: seq<Update>, ticker: string, i: nat) {
    && i < |updates| && updates[i].symbol == ticker && updates[i].price.Num?
    && forall j :: i < j < |updates| && updates[j].symbol == ticker ==> updates[j].price.NaN?
  }

  /** The cache always holds each ticker's latest price that is not NaN, with its time, whatever came in between. */
  lemma {:induction false} CacheHoldsLatest(marks: map<string, Mark>, updates: seq<Update>, ticker: string)
    ensures forall i: nat :: IsLatest(updates, ticker, i) ==>
      GetMark(AfterUpdates(marks, updates), ticker) == Mark(updates[i].price, updates[i].time)
    ensures (forall i: nat :: !IsLatest(updates, ticker, i)) ==>
      GetMark(AfterUpdates(marks, updates), ticker) == GetMark(marks, ticker)
  {
    if updates != [] {
      var init, n := updates[..|updates| - 1], |updates| - 1;
      CacheHoldsLatest(marks, init, ticker);
      if updates[n].symbol == ticker && updates[n].price.Num? {
        assert IsLatest(updates, ticker, n);
      } else {
        forall i: nat ensures IsLatest(updates, ticker, i) <==> IsLatest(init, ticker, i) {}
      }
    }
  }

  // ---------- The quote-stream protocol ----------

  datatype StreamStatus = Running | Finished | Aborted

  /** The user count, the stored stream task, and the status of every stream task ever spawned, by its number. */
  datatype Streams = Streams(users: nat, task: Option<nat>, statuses: seq<StreamStatus>)

  const NO_STREAMS := Streams(0, None, [])

  /** A start may fail to open the stream; a stream may end by itself. */
  datatype Step = Start(opens: bool) | Stop | End(id: nat)

  function IsRunning(s: Streams): bool {
    s.task.Some? && s.task.value < |s.statuses| && s.statuses[s.task.value] == Running
  }

  function AfterStart(s: Streams, opens: bool): Streams {
    var users := if s.users < U16_MAX then s.users + 1 else s.users;
    if IsRunning(s) then s.(users := users)
    else if !opens then s.(users := users - 1, task := None)
    else Streams(users, Some(|s.statuses|), s.statuses + [Running])
  }

  function AfterStop(s: Streams): Streams {
    if s.users == 0 then s
    else if s.users > 1 then s.(users := s.users - 1)
    else Streams(0, None, if IsRunning(s) then s.statuses[s.task.value := Aborted] else s.statuses)
  }

  function AfterEnd(s: Streams, id: nat): Streams {
    if id < |s.statuses| && s.statuses[id] == Running then s.(statuses := s.statuses[id := Finished]) else s
  }

  function Next(s: Streams, step: Step): Streams {
    match step
    case Start(opens) => AfterStart(s, opens)
    case Stop => AfterStop(s)
    case End(id) => AfterEnd(s, id)
  }

  function After(s: Streams, steps: seq<Step>): Streams {
    if steps == [] then s else Next(After(s, steps[..|steps| - 1]), steps[|steps| - 1])
  }

  class MarkValueCache {
    const tickers: seq<string>
    var marks: map<string, Mark>
    var task: Option<nat>
    var users: nat
    var statuses: seq<StreamStatus> // kept by the runtime: what has become of each spawned task

    constructor (tickers: seq<string>)
      ensures this.tickers == tickers && marks == map[] && State() == NO_STREAMS
    {
      this.tickers := tickers;
      marks, task, users, statuses := map[], None, 0, [];
    }

    ghost function State(): Streams
      reads this
    {
      Streams(users, task, statuses)
    }

    method Init()
      modifies this`marks
      ensures marks.Keys == set t | t in tickers
      ensures forall t :: t in marks ==> marks[t] == Mark(NaN, UNIX_EPOCH)
    {
      marks := map[];
      for i := 0 to |tickers|
        invariant marks.Keys == set t | t in tickers[..i]
        invariant forall t :: t in marks ==> marks[t] == Mark(NaN, UNIX_EPOCH)
      {
        marks := marks[tickers[i] := Mark(NaN, UNIX_EPOCH)];
        assert tickers[..i + 1] == tickers[..i] + [tickers[i]];
      }
      assert tickers[..|tickers|] == tickers;
    }

    method StartQuoteStream(builderStarts: bool)
      modifies this`task, this`users, this`statuses
      ensures State() == AfterStart(old(State()), tickers != [] && builderStarts)
      ensures IsRunning(State()) <==> old(IsRunning(State())) || (tickers != [] && builderStarts)
    {
      if users < U16_MAX { users := users + 1; }
      if task.Some? && task.value < |statuses| && statuses[task.value] == Running { return; }
      task := None;
      if |tickers| == 0 {
        users := users - 1;
        return;
      }
      if !builderStarts {
        users := users - 1;
        return;
      }
      task := Some(|statuses|);
      statuses := statuses + [Running];
    }

    method StopQuoteStream()
      modifies this`task, this`users, this`statuses
      ensures State() == AfterStop(old(State()))
    {
      if users == 0 { return; }
      users := users - 1;
      if users > 0 { return; }
      match task {
        case None =>
        case Some(id) =>
          task := None;
          if id < |statuses| && statuses[id] == Running { statuses := statuses[id := Aborted]; }
      }
    }

    /** The stream task receives one update; a missing price is not stored. */
    method StreamUpdate(symbol: string, price: Price, time: int)
      modifies this`marks
      ensures marks == AfterUpdate(old(marks), Update(symbol, price, time))
      ensures forall t :: !GetMark(old(marks), t).value.NaN? ==> !GetMark(marks, t).value.NaN?
    {
      if price.NaN? { return; }
      marks := marks[symbol := Mark(price, time)];
    }

    /** The stream task's receiver runs dry. */
    method StreamEnds(id: nat)
      modifies this`statuses
      ensures State() == AfterEnd(old(State()), id)
    {
      if id < |statuses| && statuses[id] == Running { statuses := statuses[id := Finished]; }
    }
  }

  // ---------- Any interleaving ----------

  /** Every running stream is the stored one, the stored one was not aborted, and without users none is stored. */
  ghost predicate Consistent(s: Streams) {
    && s.users <= U16_MAX
    && (s.task.Some? ==> s.task.value < |s.statuses| && s.statuses[s.task.value] != Aborted)
    && (forall id :: 0 <= id < |s.statuses| && s.statuses[id] == Running ==> s.task == Some(id))
    && (s.users == 0 ==> s.task == None)
  }

  lemma StepKeepsConsistent(s: Streams, step: Step)
    requires Consistent(s)
    ensures Consistent(Next(s, step))
  {
  }

  /** Over any sequence of starts, failed starts, stops and self-ending streams: every stream ever spawned is stored,
      finished or aborted; so at most one runs, and none once the user count is zero. */
  lemma {:induction false} AlwaysConsistent(steps: seq<Step>)
    ensures var s := After(NO_STREAMS, steps);
      && Consistent(s)
      && (forall i, j :: 0 <= i < |s.statuses| && 0 <= j < |s.statuses| && s.statuses[i] == s.statuses[j] == Running ==> i == j)
      && (s.users == 0 ==> Running !in s.statuses)
  {
    if steps != [] {
      AlwaysConsistent(steps[..|steps| - 1]);
      StepKeepsConsistent(After(NO_STREAMS, steps[..|steps| - 1]), steps[|steps| - 1]);
    }
  }

  /** What each step does to the stream: a successful start leaves one running and a failed one leaves what ran; a stop
      leaves it running unless it releases the last counted user; a stream that ends runs no more, whichever else does. */
  lemma {:induction false} RunningAfter(steps: seq<Step>, step: Step)
    ensures var s, next := After(NO_STREAMS, steps), After(NO_STREAMS, steps + [step]);
      && (IsRunning(next) <==> match step
        case Start(opens) => opens || IsRunning(s)
        case Stop => IsRunning(s) && s.users > 1
        case End(id) => IsRunning(s) && s.task != Some(id))
      && |next.statuses| == |s.statuses| + (if step == Start(true) && !IsRunning(s) then 1 else 0)
      && forall id :: 0 <= id < |s.statuses| && s.statuses[id] != next.statuses[id] ==>
        && s.statuses[id] == Running
        && next.statuses[id] == (if step.Stop? then Aborted else Finished)
        && (step.End? ==> step.id == id)
  {
    assert (steps + [step])[..|steps + [step]| - 1] == steps;
    AlwaysConsistent(steps);
  }

  /** Over any further steps no stream is forgotten, and one that has stopped running stays as it is. */
  lemma {:induction false} StatusesAreFinal(steps: seq<Step>, more: seq<Step>, id: nat)
    requires id < |After(NO_STREAMS, steps).statuses|
    ensures id < |After(NO_STREAMS, steps + more).statuses| <= |After(NO_STREAMS, steps).statuses| + |more|
    ensures After(NO_STREAMS, steps).statuses[id] != Running ==>
      After(NO_STREAMS, steps + more).statuses[id] == After(NO_STREAMS, steps).statuses[id]
  {
    if more == [] {
      assert steps + more == steps;
    } else {
      var init := more[..|more| - 1];
      StatusesAreFinal(steps, init, id);
      assert (steps + more)[..|steps + more| - 1] == steps + init;
    }
  }

  // ---------- Runs that start and stop once each ----------

  /** Task runs that have called start and not yet stop. */
  function Holders(steps: seq<Step>): int {
    if steps == [] then 0
    else
      var last := steps[|steps| - 1];
      Holders(steps[..|steps| - 1]) + (if last.Start? then 1 else if last.Stop? then -1 else 0)
  }

  /** Every stop is made by a run that has started. */
  ghost predicate Matched(steps: seq<Step>) {
    forall n :: 0 <= n <= |steps| ==> Holders(steps[..n]) >= 0
  }

  /** How many holders the count has lost: one per start that failed, one per start beyond what 16 bits can count. */
  function Lost(steps: seq<Step>): nat {
    if steps == [] then 0
    else
      var init, step := steps[..|steps| - 1], steps[|steps| - 1];
      var s := After(NO_STREAMS, init);
      Lost(init)
      + (if step.Start? && !step.opens && !IsRunning(s) then 1 else 0)
      + (if step.Start? && s.users == U16_MAX then 1 else 0)
  }

  lemma {:induction false} MatchedPrefix(steps: seq<Step>)
    requires Matched(steps) && steps != []
    ensures Matched(steps[..|steps| - 1])
    ensures Holders(steps[..|steps| - 1]) >= 0 && Holders(steps) >= 0
  {
    var init := steps[..|steps| - 1];
    forall n | 0 <= n <= |init| ensures Holders(init[..n]) >= 0 {
      assert init[..n] == steps[..n];
    }
    assert steps[..|steps|] == steps && init[..|init|] == init;
  }

  /** Stops made when the count was already zero. */
  function Absorbed(steps: seq<Step>): nat {
    if steps == [] then 0
    else
      var init := steps[..|steps| - 1];
      Absorbed(init) + (if steps[|steps| - 1].Stop? && After(NO_STREAMS, init).users == 0 then 1 else 0)
  }

  /** The count falls short of the holders by exactly the losses, less the stops that found it at zero; with matched
      stops it never exceeds the holders. */
  lemma {:induction false} CountTracksHolders(steps: seq<Step>)
    ensures Holders(steps) - After(NO_STREAMS, steps).users == Lost(steps) - Absorbed(steps)
    ensures Matched(steps) ==> Absorbed(steps) <= Lost(steps)
  {
    if steps != [] {
      CountTracksHolders(steps[..|steps| - 1]);
      AlwaysConsistent(steps[..|steps| - 1]);
      if Matched(steps) { MatchedPrefix(steps); }
    }
  }

  /** The next stop would abort a running stream. */
  ghost predicate Aborts(s: Streams) {
    IsRunning(s) && !IsRunning(AfterStop(s))
  }

  /** After these steps, a stop aborts a running stream that other runs hold. */
  ghost predicate CutsOff(steps: seq<Step>) {
    Aborts(After(NO_STREAMS, steps)) && Holders(steps + [Stop]) > 0
  }

  /** A stop cuts off other holders if and only if the stream runs, the count is one and more holders were lost than
      absorbed; it then cuts off exactly the difference. */
  lemma CutsOffIff(steps: seq<Step>)
    ensures var s := After(NO_STREAMS, steps);
      CutsOff(steps) <==> IsRunning(s) && s.users == 1 && Lost(steps) > Absorbed(steps)
    ensures Aborts(After(NO_STREAMS, steps)) ==> Holders(steps + [Stop]) == Lost(steps) - Absorbed(steps)
  {
    AlwaysConsistent(steps);
    CountTracksHolders(steps);
    assert (steps + [Stop])[..|steps + [Stop]| - 1] == steps;
  }

  lemma {:induction false} HeldStreamIsStored(steps: seq<Step>)
    requires Matched(steps) && Lost(steps) == 0
    ensures var s := After(NO_STREAMS, steps);
      s.users == Holders(steps) && (s.users > 0 ==> s.task.Some?)
  {
    CountTracksHolders(steps);
    MatchedHolds(steps);
    if steps != [] {
      MatchedPrefix(steps);
      HeldStreamIsStored(steps[..|steps| - 1]);
      AlwaysConsistent(steps[..|steps| - 1]);
    }
  }

  /** As long as no start has failed and fewer than 65,536 runs overlapped: the count is the number of holders, a held
      stream stays stored, and a stop aborts a running stream only if it is the last holder's. */
  lemma WithoutLosses(steps: seq<Step>)
    requires Matched(steps + [Stop]) && Lost(steps) == 0
    ensures var s := After(NO_STREAMS, steps);
      && s.users == Holders(steps)
      && s.task.Some?
      && (Aborts(s) <==> IsRunning(s) && Holders(steps + [Stop]) == 0)
  {
    var all := steps + [Stop];
    MatchedPrefix(all);
    assert all[..|all| - 1] == steps;
    HeldStreamIsStored(steps);
    AlwaysConsistent(steps);
  }

  // ---------- When holders can be cut off ----------

  lemma MatchedHolds(steps: seq<Step>)
    requires Matched(steps)
    ensures Holders(steps) >= 0
  {
    assert steps[..|steps|] == steps;
  }

  lemma MatchedSnoc(steps: seq<Step>, step: Step)
    requires Matched(steps) && (step.Stop? ==> Holders(steps) > 0)
    ensures Matched(steps + [step])
  {
    var all := steps + [step];
    MatchedHolds(steps);
    assert all[..|steps|] == steps;
    forall n | 0 <= n <= |all| ensures Holders(all[..n]) >= 0 {
      if n <= |steps| { assert all[..n] == steps[..n]; } else { assert all[..n] == all; }
    }
  }

  /** Steps that lose no further holder. */
  ghost predicate Continues(steps: seq<Step>, more: seq<Step>) {
    Matched(steps + more) && Lost(steps + more) == Lost(steps)
  }

  /** If there are more holders than the count says, the excess can stop until the count is zero. */
  lemma {:induction false} Drain(steps: seq<Step>) returns (more: seq<Step>)
    requires Matched(steps) && Lost(steps) > Absorbed(steps)
    ensures Continues(steps, more) && After(NO_STREAMS, steps + more).users == 0
    ensures Absorbed(steps + more) == Absorbed(steps)
    decreases After(NO_STREAMS, steps).users
  {
    if After(NO_STREAMS, steps).users == 0 {
      more := [];
      assert steps + more == steps;
    } else {
      var next := steps + [Stop];
      assert next[..|next| - 1] == steps;
      CountTracksHolders(steps);
      MatchedSnoc(steps, Stop);
      var rest := Drain(next);
      more := [Stop] + rest;
      assert steps + more == next + rest;
    }
  }

  /** From a matched run, further matched starts and stops without a further loss can cut holders off if and only if
      more holders have been lost than absorbed. */
  lemma CanCutOffIff(steps: seq<Step>)
    requires Matched(steps)
    ensures (exists more :: Continues(steps, more) && CutsOff(steps + more)) <==> Lost(steps) > Absorbed(steps)
  {
    if more :| Continues(steps, more) && CutsOff(steps + more) {
      CutsOffIff(steps + more);
      AbsorbedGrows(steps, more);
    }
    if Lost(steps) > Absorbed(steps) {
      var drain := Drain(steps);
      StartThenCutOff(steps, drain);
    }
  }

  lemma {:induction false} AbsorbedGrows(steps: seq<Step>, more: seq<Step>)
    ensures Absorbed(steps) <= Absorbed(steps + more)
  {
    if more == [] {
      assert steps + more == steps;
    } else {
      AbsorbedGrows(steps, more[..|more| - 1]);
      assert (steps + more)[..|steps + more| - 1] == steps + more[..|more| - 1];
    }
  }

  lemma StartThenCutOff(steps: seq<Step>, drain: seq<Step>)
    requires Continues(steps, drain) && After(NO_STREAMS, steps + drain).users == 0
    requires Lost(steps + drain) > Absorbed(steps + drain)
    ensures Continues(steps, drain + [Start(true)]) && CutsOff(steps + (drain + [Start(true)]))
  {
    var drained := steps + drain;
    var all := drained + [Start(true)];
    assert all == steps + (drain + [Start(true)]) && all[..|all| - 1] == drained;
    AlwaysConsistent(drained);
    MatchedSnoc(drained, Start(true));
    CutsOffIff(all);
  }

  /** With a failed start the claim fails: the failing run's own stop aborts the stream that another run holds. */
  lemma FailedStartStealsStream()
    ensures var steps := [Start(false), Start(true)];
      && Matched(steps + [Stop])
      && Aborts(After(NO_STREAMS, steps))
      && Holders(steps + [Stop]) == 1
      && Lost(steps) == 1
  {
    var steps := [Start(false), Start(true), Stop];
    assert steps[..2] == [Start(false), Start(true)] && steps[..2][..1] == [Start(false)] && steps[..2][..1][..0] == [];
    assert steps == steps[..2] + [Stop];
    assert steps[..1] == [Start(false)] && steps[..0] == [] && steps[..3] == steps;
    assert Holders(steps[..1]) == 1 && Holders(steps[..2]) == 2 && Holders(steps) == 1;
    assert After(NO_STREAMS, steps[..1]) == NO_STREAMS;
    assert After(NO_STREAMS, steps[..2]) == Streams(1, Some(0), [Running]);
  }
}
