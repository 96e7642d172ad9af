/** The trading-day protocol as a whole: the scheduler's loop, the slot times, the noon window and the single placement
    of a run together bound what is traded live on one Eastern date. */
module TradingDays {
  import opened LocalTime
  import opened Slots
  import opened Scheduler
  import opened SchedulerRuns
  import opened Calendar
  import opened Orders
  import opened FastRunners

  /** A run of the scheduler, and what each task run spawned by it saw: inputs[i][k] belongs to task k's run spawned
      by turn i, if there is one. */
  datatype History = History(run: Run, inputs: seq<seq<RunInput>>) {
    ghost predicate Valid(delta: int, epsilon: int) {
      && run.Paced(delta, epsilon)
      && |inputs| == |run.turns|
      && (forall i :: 0 <= i < |inputs| ==> |inputs[i]| == |run.kinds|)
      && (forall k :: 0 <= k < |run.kinds| && run.kinds[k].FastRun? ==>
        IsSlotInstant(run.zone, run.kinds[k].strategy, run.times[0][k]))
    }

    /** Turn i spawned a run of the FastRunner task k. */
    ghost predicate Spawns(i: nat, k: nat)
      requires run.WellFormed() && i < |run.turns| && k < |run.kinds|
    {
      run.kinds[k].FastRun? && run.Fires(i, k)
    }

    /** The run spawned by turn i for task k reads its clock less than lateness after its trigger, and its UTC date
        not later than that. */
    ghost predicate PromptRun(i: nat, k: nat, lateness: int)
      requires run.WellFormed() && i < |run.turns| == |inputs| && k < |run.kinds| == |inputs[i]|
    {
      var input := inputs[i][k];
      && run.turns[i].now <= input.clock < run.times[i][k] + lateness
      && ValidDate(input.today)
      && EPOCH_DAY + run.turns[i].now / DAY <= DayNumber(input.today) <= EPOCH_DAY + input.clock / DAY
    }

    /** Every run of task k is prompt. */
    ghost predicate Prompt(k: nat, delta: int, epsilon: int, lateness: int) {
      && Valid(delta, epsilon) && k < |run.kinds|
      && forall i :: 0 <= i < |run.turns| && Spawns(i, k) ==> PromptRun(i, k, lateness)
    }

    /** Every run of task k whose trigger is the given instant reads its clock less than lateness after it. */
    ghost predicate PromptAt(k: nat, trigger: int, lateness: int)
      requires Shaped() && k < |run.kinds|
    {
      forall i :: 0 <= i < |run.turns| && Spawns(i, k) && run.times[i][k] == trigger ==>
        inputs[i][k].clock < trigger + lateness
    }

    ghost predicate Shaped() {
      run.WellFormed() && |inputs| == |run.turns| && forall i :: 0 <= i < |inputs| ==> |inputs[i]| == |run.kinds|
    }

    /** Task k's run spawned by turn i, if any, belongs to this local date and, if asked, is in live mode. */
    ghost predicate RunIn(i: nat, k: nat, date: int, onlyLive: bool)
      requires Shaped() && i < |run.turns| && k < |run.kinds|
    {
      && Spawns(i, k)
      && LocalDate(run.zone, inputs[i][k].clock) == date
      && (onlyLive ==> CloseToNoon(run.zone, inputs[i][k].clock))
    }

    /** How many of task k's runs in the first n turns belong to a local date, or how many of those are live. */
    ghost function RunsOn(k: nat, date: int, n: nat, onlyLive: bool): nat
      requires Shaped() && k < |run.kinds| && n <= |run.turns|
    {
      if n == 0 then 0 else RunsOn(k, date, n - 1, onlyLive) + (if RunIn(n - 1, k, date, onlyLive) then 1 else 0)
    }

    /** The placements that are not simulated, made by the run that turn i spawned for task k on a local date. */
    ghost function LiveIn(i: nat, k: nat, date: int): seq<Placement>
      requires Shaped() && i < |run.turns| && k < |run.kinds|
    {
      if RunIn(i, k, date, false)
      then LivePlacements(RunPlacements(run.zone, run.kinds[k].strategy, false, inputs[i][k]))
      else []
    }

    /** The same, turn by turn. */
    ghost function LiveTurns(k: nat, date: int): (turns: seq<seq<Placement>>)
      requires Shaped() && k < |run.kinds|
      ensures |turns| == |run.turns|
    {
      seq(|run.turns|, i requires 0 <= i < |run.turns| => LiveIn(i, k, date))
    }

    /** All placements that are not simulated, made by task k's runs on a local date. */
    ghost function LiveOn(k: nat, date: int): seq<Placement>
      requires Shaped() && k < |run.kinds|
    {
      Concat(LiveTurns(k, date))
    }
  }

  ghost function Concat(parts: seq<seq<Placement>>): seq<Placement> {
    if parts == [] then [] else Concat(parts[..|parts| - 1]) + parts[|parts| - 1]
  }

  ghost function LivePlacements(placed: seq<Placement>): seq<Placement> {
    if placed == [] then []
    else (if placed[0].isSimulation then [] else [placed[0]]) + LivePlacements(placed[1..])
  }

  lemma LiveOfOne(placed: seq<Placement>)
    requires |placed| <= 1
    ensures LivePlacements(placed) == if placed == [] || placed[0].isSimulation then [] else placed
  {
    if placed != [] { assert LivePlacements(placed[1..]) == []; }
  }

  // ---------- Promptness from the scheduler's pace ----------

  /** The first turn comes at most delta + epsilon after task k's first trigger. */
  ghost predicate PromptStart(run: Run, delta: int, epsilon: int, k: nat)
    requires run.WellFormed() && k < |run.kinds|
  {
    run.turns != [] ==> run.turns[0].now <= run.times[0][k] + delta + epsilon
  }

  lemma FiringLateness(run: Run, delta: int, epsilon: int, i: nat, k: nat)
    requires run.Paced(delta, epsilon) && i < |run.turns| && k < |run.kinds| && PromptStart(run, delta, epsilon, k)
    ensures run.turns[i].now <= run.times[i][k] + delta + epsilon
  {
    if i > 0 { BoundedLateness(run, delta, epsilon, i, k); }
  }

  /** A task whose runs read their clocks at most sigma after their turns is as prompt as the three delays together
      allow. */
  lemma PromptByPace(h: History, delta: int, epsilon: int, sigma: int, lateness: int, k: nat)
    requires h.Valid(delta, epsilon) && delta + epsilon + sigma < lateness
    requires k < |h.run.kinds| && PromptStart(h.run, delta, epsilon, k)
    requires forall i :: 0 <= i < |h.run.turns| && h.Spawns(i, k) ==>
      var now, input := h.run.turns[i].now, h.inputs[i][k];
      && now <= input.clock <= now + sigma
      && ValidDate(input.today)
      && EPOCH_DAY + now / DAY <= DayNumber(input.today) <= EPOCH_DAY + input.clock / DAY
    ensures h.Prompt(k, delta, epsilon, lateness)
  {
    forall i | 0 <= i < |h.run.turns| && h.Spawns(i, k) ensures h.PromptRun(i, k, lateness) {
      FiringLateness(h.run, delta, epsilon, i, k);
    }
  }

  // ---------- At most one live placement a day ----------

  lemma {:induction false} TriggersAreSlots(h: History, delta: int, epsilon: int, i: nat, k: nat)
    requires h.Valid(delta, epsilon) && i <= |h.run.turns| && k < |h.run.kinds| && h.run.kinds[k].FastRun?
    ensures IsSlotInstant(h.run.zone, h.run.kinds[k].strategy, h.run.times[i][k])
  {
    if i > 0 {
      TriggersAreSlots(h, delta, epsilon, i - 1, k);
      assert h.run.TurnUpdates(i - 1);
      if h.run.Fires(i - 1, k) {
        var strategy, turn := h.run.kinds[k].strategy, h.run.turns[i - 1];
        assert h.run.TurnPaced(i - 1, delta, epsilon);
        TriggerSlotsAreValid(strategy);
        var _ := NextTriggerIsSlot(h.run.zone, TriggerSlots(strategy), turn.readings[k], turn.now);
      }
    }
  }

  /** A run is live exactly if its lateness carries its slot into the three minutes around noon. */
  lemma LiveByLateness(z: Zone, strategy: Strategy, n: int, clock: int)
    requires EarlyChanges(z)
    requires var s := SlotAt(z, TriggerSlots(strategy), n); s <= clock < s + 9 * HOUR
    ensures LocalDate(z, clock) == n / 4
    ensures var lateness, slot := clock - SlotAt(z, TriggerSlots(strategy), n), TriggerSlots(strategy)[n % 4];
      CloseToNoon(z, clock) <==> 12 * HOUR - 90 * SECOND < slot + lateness < 12 * HOUR + 90 * SECOND
  {
    TriggerSlotsAreValid(strategy);
    ShortlyAfterSlot(z, TriggerSlots(strategy), n, clock);
    LiveWindow(z, clock);
  }

  /** Less than 28 minutes late, only the last slot of a date can be live; less than 130 seconds late, it is. */
  lemma CloseToNoonAfterSlot(z: Zone, strategy: Strategy, n: int, clock: int)
    requires EarlyChanges(z)
    requires var s := SlotAt(z, TriggerSlots(strategy), n); s <= clock < s + 28 * MINUTE
    ensures LocalDate(z, clock) == n / 4
    ensures CloseToNoon(z, clock) ==> n % 4 == 3
    ensures n % 4 == 3 && clock < SlotAt(z, TriggerSlots(strategy), n) + 130 * SECOND ==> CloseToNoon(z, clock)
  {
    LiveByLateness(z, strategy, n, clock);
    var k := n % 4;
    assert k == 0 || k == 1 || k == 2 || k == 3;
  }

  /** A run that places live orders was triggered by the last slot of its date. */
  lemma LiveRunIsLastOfDay(h: History, delta: int, epsilon: int, i: nat, k: nat)
    requires h.Prompt(k, delta, epsilon, 28 * MINUTE) && i < |h.run.turns| && k < |h.run.kinds| && h.Spawns(i, k)
    requires CloseToNoon(h.run.zone, h.inputs[i][k].clock)
    ensures h.run.times[i][k] ==
      SlotAt(h.run.zone, TriggerSlots(h.run.kinds[k].strategy), 4 * LocalDate(h.run.zone, h.inputs[i][k].clock) + 3)
  {
    var z, strategy := h.run.zone, h.run.kinds[k].strategy;
    TriggersAreSlots(h, delta, epsilon, i, k);
    var n: int :| h.run.times[i][k] == SlotAt(z, TriggerSlots(strategy), n);
    assert h.PromptRun(i, k, 28 * MINUTE);
    CloseToNoonAfterSlot(z, strategy, n, h.inputs[i][k].clock);
  }

  /** A turn adds at most one live placement, and only when it fires the last slot of the date. */
  lemma LiveInTurn(h: History, delta: int, epsilon: int, i: nat, k: nat, date: int)
    requires h.Prompt(k, delta, epsilon, 28 * MINUTE) && i < |h.run.turns| && k < |h.run.kinds| && h.run.kinds[k].FastRun?
    ensures var live := h.LiveIn(i, k, date);
      && |live| <= 1
      && (live != [] ==>
        && h.RunIn(i, k, date, true)
        && live == RunPlacements(h.run.zone, h.run.kinds[k].strategy, false, h.inputs[i][k])
        && h.run.times[i][k] == SlotAt(h.run.zone, TriggerSlots(h.run.kinds[k].strategy), 4 * date + 3))
  {
    if h.RunIn(i, k, date, false) {
      var placed := RunPlacements(h.run.zone, h.run.kinds[k].strategy, false, h.inputs[i][k]);
      RunPlacesOnce(h.run.zone, h.run.kinds[k].strategy, false, h.inputs[i][k]);
      LiveOfOne(placed);
      if placed != [] { assert placed[0] in placed; }
      if h.RunIn(i, k, date, true) { LiveRunIsLastOfDay(h, delta, epsilon, i, k); }
    }
  }

  /** A turn adds a live placement only when the trigger stands at the instant last, and then moves it on. */
  ghost predicate OnlyAt(live: seq<Placement>, was: int, becomes: int, last: int) {
    was <= becomes && |live| <= 1 && (live != [] ==> was == last < becomes)
  }

  /** What can only be added at one value of a counter that then moves on for good is added at most once. */
  lemma {:induction false} ConcatOnce(parts: seq<seq<Placement>>, times: seq<int>, last: int)
    requires |times| == |parts| + 1
    requires forall i :: 0 <= i < |parts| ==> OnlyAt(parts[i], times[i], times[i + 1], last)
    ensures |Concat(parts)| <= 1
    ensures Concat(parts) != [] ==> last < times[|parts|]
  {
    if parts != [] {
      var n := |parts| - 1;
      var init, earlier := parts[..n], times[..n + 1];
      forall i | 0 <= i < n ensures OnlyAt(init[i], earlier[i], earlier[i + 1], last) {
        assert OnlyAt(parts[i], times[i], times[i + 1], last);
      }
      ConcatOnce(init, earlier, last);
      assert OnlyAt(parts[n], times[n], times[n + 1], last);
    }
  }

  lemma LiveTurnOnlyAt(h: History, delta: int, epsilon: int, i: nat, k: nat, date: int)
    requires h.Prompt(k, delta, epsilon, 28 * MINUTE) && i < |h.run.turns| && h.run.kinds[k].FastRun?
    ensures OnlyAt(h.LiveIn(i, k, date), h.run.times[i][k], h.run.times[i + 1][k],
      SlotAt(h.run.zone, TriggerSlots(h.run.kinds[k].strategy), 4 * date + 3))
  {
    TriggersAhead(h.run, delta, epsilon, i, k);
    LiveInTurn(h, delta, epsilon, i, k, date);
  }

  /** Over every run of the scheduler, if each task run reads its clock less than 28 minutes after its slot, a strategy
      places live orders at most once per local date. */
  lemma {:induction false} AtMostOneLivePlacementADay(h: History, delta: int, epsilon: int, k: nat, date: int)
    requires h.Prompt(k, delta, epsilon, 28 * MINUTE) && h.run.kinds[k].FastRun?
    ensures |h.LiveOn(k, date)| <= 1
  {
    var last := SlotAt(h.run.zone, TriggerSlots(h.run.kinds[k].strategy), 4 * date + 3);
    var parts, times := h.LiveTurns(k, date), seq(|h.run.times|, i requires 0 <= i < |h.run.times| => h.run.times[i][k]);
    forall i | 0 <= i < |parts| ensures OnlyAt(parts[i], times[i], times[i + 1], last) {
      LiveTurnOnlyAt(h, delta, epsilon, i, k, date);
    }
    ConcatOnce(parts, times, last);
  }

  // ---------- Exactly one live run a day ----------

  /** Firings of task k in the first n turns. */
  ghost function Firings(run: Run, k: nat, n: nat): nat
    requires run.WellFormed() && k < |run.kinds| && n <= |run.turns|
  {
    if n == 0 then 0 else Firings(run, k, n - 1) + (if run.Fires(n - 1, k) then 1 else 0)
  }

  /** If the firing is timely, the slot pending after it is the next one. */
  lemma NextSlotPending(h: History, delta: int, epsilon: int, i: nat, k: nat, m: int)
    requires h.Valid(delta, epsilon) && 2 * delta + epsilon < GAP && i < |h.run.turns|
    requires k < |h.run.kinds| && h.run.kinds[k].FastRun? && PromptStart(h.run, delta, epsilon, k)
    requires h.run.Fires(i, k)
    requires h.run.times[i][k] == SlotAt(h.run.zone, TriggerSlots(h.run.kinds[k].strategy), m)
    ensures h.run.times[i + 1][k] == SlotAt(h.run.zone, TriggerSlots(h.run.kinds[k].strategy), m + 1)
  {
    var strategy, turn := h.run.kinds[k].strategy, h.run.turns[i];
    FiringLateness(h.run, delta, epsilon, i, k);
    assert h.run.TurnPaced(i, delta, epsilon) && h.run.TurnUpdates(i);
    TriggerSlotsAreValid(strategy);
    TimelyUpdateVisitsNextSlot(h.run.zone, TriggerSlots(strategy), m, turn.readings[k]);
  }

  /** A timely scheduler works through the slots in turn: after each firing the next slot is pending. */
  lemma {:induction false} SlotsInTurn(h: History, delta: int, epsilon: int, k: nat, first: int, n: nat)
    requires h.Valid(delta, epsilon) && 2 * delta + epsilon < GAP && n <= |h.run.turns|
    requires k < |h.run.kinds| && h.run.kinds[k].FastRun? && PromptStart(h.run, delta, epsilon, k)
    requires h.run.times[0][k] == SlotAt(h.run.zone, TriggerSlots(h.run.kinds[k].strategy), first)
    ensures h.run.times[n][k] ==
      SlotAt(h.run.zone, TriggerSlots(h.run.kinds[k].strategy), first + Firings(h.run, k, n))
  {
    if n > 0 {
      SlotsInTurn(h, delta, epsilon, k, first, n - 1);
      TriggersAhead(h.run, delta, epsilon, n - 1, k);
      if h.run.Fires(n - 1, k) {
        NextSlotPending(h, delta, epsilon, n - 1, k, first + Firings(h.run, k, n - 1));
      }
    }
  }

  function Clamp(x: int, low: int, high: int): int {
    if x < low then low else if x > high then high else x
  }

  /** How many runs of a date there have been is determined by how far the slots have been worked through since the
      first one registered. */
  lemma {:induction false} RunsByPendingSlot(h: History, delta: int, epsilon: int, k: nat, first: int, date: int, n: nat)
    requires h.Prompt(k, delta, epsilon, 28 * MINUTE) && 2 * delta + epsilon < GAP && n <= |h.run.turns|
    requires h.run.kinds[k].FastRun? && PromptStart(h.run, delta, epsilon, k)
    requires var slots := TriggerSlots(h.run.kinds[k].strategy);
      && h.run.times[0][k] == SlotAt(h.run.zone, slots, first)
      && h.PromptAt(k, SlotAt(h.run.zone, slots, 4 * date + 3), 130 * SECOND)
    ensures var pending := first + Firings(h.run, k, n);
      && h.RunsOn(k, date, n, false) == Clamp(pending - 4 * date, 0, 4) - Clamp(first - 4 * date, 0, 4)
      && h.RunsOn(k, date, n, true) == Clamp(pending - (4 * date + 3), 0, 1) - Clamp(first - (4 * date + 3), 0, 1)
  {
    if n > 0 {
      RunsByPendingSlot(h, delta, epsilon, k, first, date, n - 1);
      SlotsInTurn(h, delta, epsilon, k, first, n - 1);
      if h.Spawns(n - 1, k) { RunOfSlot(h, delta, epsilon, n - 1, k, first + Firings(h.run, k, n - 1), date); }
    }
  }

  /** The run of slot number m belongs to the date of the slot, and on the given date only the last slot's is live. */
  lemma RunOfSlot(h: History, delta: int, epsilon: int, i: nat, k: nat, m: int, date: int)
    requires h.Prompt(k, delta, epsilon, 28 * MINUTE) && i < |h.run.turns| && h.Spawns(i, k)
    requires var slots := TriggerSlots(h.run.kinds[k].strategy);
      && h.run.times[i][k] == SlotAt(h.run.zone, slots, m)
      && h.PromptAt(k, SlotAt(h.run.zone, slots, 4 * date + 3), 130 * SECOND)
    ensures h.RunIn(i, k, date, false) <==> 4 * date <= m <= 4 * date + 3
    ensures h.RunIn(i, k, date, true) <==> m == 4 * date + 3
  {
    assert h.PromptRun(i, k, 28 * MINUTE);
    CloseToNoonAfterSlot(h.run.zone, h.run.kinds[k].strategy, m, h.inputs[i][k].clock);
  }

  /** What it takes for a date to be run through: a timely scheduler registered the task's trigger no later than the
      last slot of the date and has reached that slot; the task's runs read their clocks less than 28 minutes late, and
      the run of the last slot of this date less than 130 seconds late. */
  ghost predicate RunThrough(h: History, delta: int, epsilon: int, k: nat, first: int, date: int) {
    && h.Prompt(k, delta, epsilon, 28 * MINUTE) && 2 * delta + epsilon < GAP
    && h.run.kinds[k].FastRun? && PromptStart(h.run, delta, epsilon, k)
    && var slots := TriggerSlots(h.run.kinds[k].strategy);
    var last := SlotAt(h.run.zone, slots, 4 * date + 3);
    && h.run.times[0][k] == SlotAt(h.run.zone, slots, first)
    && first <= 4 * date + 3
    && h.run.turns != [] && last <= h.run.turns[|h.run.turns| - 1].now
    && h.PromptAt(k, last, 130 * SECOND)
  }

  /** On every local date that the scheduler has run through the strategy is run once for each slot, four times unless
      the scheduler was started during the date, and exactly once in live mode. */
  lemma ExactlyOneLiveRunADay(h: History, delta: int, epsilon: int, k: nat, first: int, date: int)
    requires RunThrough(h, delta, epsilon, k, first, date)
    ensures h.RunsOn(k, date, |h.run.turns|, false) == if first <= 4 * date then 4 else 4 * date + 4 - first
    ensures h.RunsOn(k, date, |h.run.turns|, true) == 1
  {
    RunsByPendingSlot(h, delta, epsilon, k, first, date, |h.run.turns|);
    PassedSlot(h, delta, epsilon, k, first, 4 * date + 3);
  }

  /** A slot that the last turn has reached is no longer pending after it. */
  lemma PassedSlot(h: History, delta: int, epsilon: int, k: nat, first: int, m: int)
    requires h.Valid(delta, epsilon) && 2 * delta + epsilon < GAP && h.run.turns != []
    requires k < |h.run.kinds| && h.run.kinds[k].FastRun? && PromptStart(h.run, delta, epsilon, k)
    requires h.run.times[0][k] == SlotAt(h.run.zone, TriggerSlots(h.run.kinds[k].strategy), first)
    requires SlotAt(h.run.zone, TriggerSlots(h.run.kinds[k].strategy), m) <= h.run.turns[|h.run.turns| - 1].now
    ensures m < first + Firings(h.run, k, |h.run.turns|)
  {
    SlotsInTurn(h, delta, epsilon, k, first, |h.run.turns|);
    TriggersAhead(h.run, delta, epsilon, |h.run.turns| - 1, k);
    BeforeLaterSlot(h.run.zone, h.run.kinds[k].strategy, m, first + Firings(h.run, k, |h.run.turns|));
  }

  lemma BeforeLaterSlot(z: Zone, strategy: Strategy, m: int, n: int)
    requires EarlyChanges(z)
    ensures SlotAt(z, TriggerSlots(strategy), m) < SlotAt(z, TriggerSlots(strategy), n) ==> m < n
  {
    TriggerSlotsAreValid(strategy);
    SlotOrder(z, TriggerSlots(strategy), m, n);
  }

  // ---------- Exactly one live placement on a run day ----------

  /** The one live run of a date: the turn that spawned it. */
  lemma {:induction false} OneRun(h: History, k: nat, date: int, n: nat) returns (i: nat)
    requires h.Shaped() && k < |h.run.kinds| && n <= |h.run.turns| && h.RunsOn(k, date, n, true) == 1
    ensures i < n && h.RunIn(i, k, date, true)
    ensures forall j :: 0 <= j < n && h.RunIn(j, k, date, true) ==> j == i
  {
    if h.RunIn(n - 1, k, date, true) {
      i := n - 1;
      NoRun(h, k, date, n - 1);
    } else {
      i := OneRun(h, k, date, n - 1);
    }
  }

  lemma {:induction false} NoRun(h: History, k: nat, date: int, n: nat)
    requires h.Shaped() && k < |h.run.kinds| && n <= |h.run.turns| && h.RunsOn(k, date, n, true) == 0
    ensures forall j :: 0 <= j < n ==> !h.RunIn(j, k, date, true)
  {
    if n > 0 { NoRun(h, k, date, n - 1); }
  }

  lemma {:induction false} ConcatOfOne(parts: seq<seq<Placement>>, i: nat)
    requires forall j :: 0 <= j < |parts| && j != i ==> parts[j] == []
    ensures Concat(parts) == if i < |parts| then parts[i] else []
  {
    if parts != [] { ConcatOfOne(parts[..|parts| - 1], i); }
  }

  /** A date that was run through has exactly one live placement if it is a run day and the live run gets a tradable
      download before its deadline, and none otherwise. */
  lemma LivePlacementIff(h: History, delta: int, epsilon: int, k: nat, first: int, date: int) returns (i: nat)
    requires RunThrough(h, delta, epsilon, k, first, date)
    ensures i < |h.run.turns| && h.RunIn(i, k, date, true)
    ensures var strategy, input := h.run.kinds[k].strategy, h.inputs[i][k];
      && (|h.LiveOn(k, date)| == 1 <==>
        IsRunDay(strategy, input.today) && GetsTradable(strategy, input.loopStart + 270 * SECOND, input.passes))
      && |h.LiveOn(k, date)| <= 1
  {
    ExactlyOneLiveRunADay(h, delta, epsilon, k, first, date);
    i := OneRun(h, k, date, |h.run.turns|);
    forall j | 0 <= j < |h.run.turns| && j != i ensures h.LiveTurns(k, date)[j] == [] {
      LiveInTurn(h, delta, epsilon, j, k, date);
    }
    ConcatOfOne(h.LiveTurns(k, date), i);
    LiveRunPlaces(h, k, date, i);
    assert h.PromptRun(i, k, 28 * MINUTE);
    RunsTodayIff(h.run.kinds[k].strategy, h.inputs[i][k].today);
  }

  lemma LiveRunPlaces(h: History, k: nat, date: int, i: nat)
    requires h.Shaped() && k < |h.run.kinds| && i < |h.run.turns| && h.RunIn(i, k, date, true)
    ensures var strategy, input := h.run.kinds[k].strategy, h.inputs[i][k];
      |h.LiveIn(i, k, date)| ==
        if RunsToday(strategy, input.today) && GetsTradable(strategy, input.loopStart + LoopLength(false), input.passes) then 1
        else 0
  {
    var strategy, input := h.run.kinds[k].strategy, h.inputs[i][k];
    var placed := RunPlacements(h.run.zone, strategy, false, input);
    RunPlacesOnce(h.run.zone, strategy, false, input);
    LoopPlacesIff(strategy, false, DayBudget(input.today), input.loopStart + LoopLength(false), input.passes);
    LiveOfOne(placed);
    if placed != [] { assert placed[0] in placed; }
  }

  // ---------- The money at stake on a day ----------

  ghost function TotalValue(placed: seq<Placement>): real {
    if placed == [] then 0.0 else OrderedValue(placed[0].orders) + TotalValue(placed[1..])
  }

  /** In Eastern time the UTC date of a live run is its local date. */
  lemma LiveRunDate(h: History, delta: int, epsilon: int, i: nat, k: nat)
    requires h.Prompt(k, delta, epsilon, 28 * MINUTE) && Eastern(h.run.zone)
    requires i < |h.run.turns| && k < |h.run.kinds| && h.Spawns(i, k)
    requires CloseToNoon(h.run.zone, h.inputs[i][k].clock)
    ensures DayNumber(h.inputs[i][k].today) == EPOCH_DAY + LocalDate(h.run.zone, h.inputs[i][k].clock)
  {
    var z, clock := h.run.zone, h.inputs[i][k].clock;
    LiveRunAfterEleven(h, delta, epsilon, i, k);
    assert h.PromptRun(i, k, 28 * MINUTE);
    LiveWindow(z, clock);
    AroundNoonUtc(z, LocalDate(z, clock), h.run.turns[i].now);
    AroundNoonUtc(z, LocalDate(z, clock), clock);
  }

  lemma LiveRunAfterEleven(h: History, delta: int, epsilon: int, i: nat, k: nat)
    requires h.Prompt(k, delta, epsilon, 28 * MINUTE)
    requires i < |h.run.turns| && k < |h.run.kinds| && h.Spawns(i, k)
    requires CloseToNoon(h.run.zone, h.inputs[i][k].clock)
    ensures InstantOf(h.run.zone, LocalDate(h.run.zone, h.inputs[i][k].clock), 11 * HOUR) <= h.run.turns[i].now
  {
    var date := LocalDate(h.run.zone, h.inputs[i][k].clock);
    LiveRunIsLastOfDay(h, delta, epsilon, i, k);
    assert (4 * date + 3) / 4 == date && (4 * date + 3) % 4 == 3;
    assert h.run.times[i][k] == InstantOf(h.run.zone, date, TriggerSlots(h.run.kinds[k].strategy)[3]);
  }

  lemma AroundNoonUtc(z: Zone, date: int, t: int)
    requires Eastern(z) && InstantOf(z, date, 11 * HOUR) <= t <= InstantOf(z, date, 13 * HOUR)
    ensures t / DAY == date
  {
    assert z.offset(date) == -5 * HOUR || z.offset(date) == -4 * HOUR;
  }

  lemma {:induction false} ConcatMember(parts: seq<seq<Placement>>, p: Placement) returns (i: nat)
    requires p in Concat(parts)
    ensures i < |parts| && p in parts[i]
  {
    var n := |parts| - 1;
    if p in parts[n] { i := n; } else { i := ConcatMember(parts[..n], p); }
  }

  lemma LiveOrderOfBudget(h: History, delta: int, epsilon: int, k: nat, today: Date, p: Placement, turns: seq<seq<Placement>>)
    requires h.Prompt(k, delta, epsilon, 28 * MINUTE) && Eastern(h.run.zone)
    requires h.run.kinds[k].FastRun? && ValidDate(today)
    requires turns == h.LiveTurns(k, DayNumber(today) - EPOCH_DAY) && p in Concat(turns)
    ensures !p.isSimulation && AreOrdersOf(h.run.kinds[k].strategy, DayBudget(today), p.orders)
  {
    var i := ConcatMember(turns, p);
    LiveInTurnOfBudget(h, delta, epsilon, i, k, today);
    assert turns[i] == [turns[i][0]];
  }

  /** Everything a strategy places live on a date is made of orders from that date's budget for it. */
  lemma {:induction false} LiveOrdersOfBudget(h: History, delta: int, epsilon: int, k: nat, today: Date, live: seq<Placement>)
    requires h.Prompt(k, delta, epsilon, 28 * MINUTE) && Eastern(h.run.zone)
    requires h.run.kinds[k].FastRun? && ValidDate(today) && live == h.LiveOn(k, DayNumber(today) - EPOCH_DAY)
    ensures forall p :: p in live ==> !p.isSimulation && AreOrdersOf(h.run.kinds[k].strategy, DayBudget(today), p.orders)
  {
    var turns := h.LiveTurns(k, DayNumber(today) - EPOCH_DAY);
    forall p | p in live ensures !p.isSimulation && AreOrdersOf(h.run.kinds[k].strategy, DayBudget(today), p.orders) {
      LiveOrderOfBudget(h, delta, epsilon, k, today, p, turns);
    }
  }

  /** Everything a strategy places live on a date was downloaded by one of its live runs of that date: each order names
      the security and the side of a downloaded event. */
  lemma {:induction false} LiveOrdersNameDownload(h: History, delta: int, epsilon: int, k: nat, date: int, p: Placement)
    returns (i: nat, pass: nat)
    requires h.Prompt(k, delta, epsilon, 28 * MINUTE) && h.run.kinds[k].FastRun? && p in h.LiveOn(k, date)
    ensures i < |h.run.turns| && h.RunIn(i, k, date, true) && pass < |h.inputs[i][k].passes|
    ensures h.inputs[i][k].passes[pass].at < h.inputs[i][k].loopStart + 270 * SECOND
    ensures var input := h.inputs[i][k];
      p.orders == OrdersFor(h.run.kinds[k].strategy, DayBudget(input.today), input.passes[pass].events)
    ensures var events := h.inputs[i][k].passes[pass].events;
      && |p.orders| == |events|
      && forall m :: 0 <= m < |events| ==>
        p.orders[m].ticker == events[m].ticker && p.orders[m].orderType == events[m].orderType
  {
    i := ConcatMember(h.LiveTurns(k, date), p);
    LiveInTurn(h, delta, epsilon, i, k, date);
    var strategy, input := h.run.kinds[k].strategy, h.inputs[i][k];
    RunPlacesOnce(h.run.zone, strategy, false, input);
    pass := RunPlacesFrom(h.run.zone, strategy, false, input, p);
    forall m | 0 <= m < |input.passes[pass].events|
      ensures |p.orders| == |input.passes[pass].events|
      ensures p.orders[m].ticker == input.passes[pass].events[m].ticker
      ensures p.orders[m].orderType == input.passes[pass].events[m].orderType
    {
      OrdersForName(strategy, DayBudget(input.today), input.passes[pass].events, m);
    }
  }

  /** What a strategy orders live on a date is within that date's budget for it. */
  lemma {:induction false} LiveWithinBudget(h: History, delta: int, epsilon: int, k: nat, today: Date)
    requires h.Prompt(k, delta, epsilon, 28 * MINUTE) && Eastern(h.run.zone)
    requires h.run.kinds[k].FastRun? && ValidDate(today)
    ensures TotalValue(h.LiveOn(k, DayNumber(today) - EPOCH_DAY)) <= StrategyBudget(h.run.kinds[k].strategy, DayBudget(today))
  {
    var live := h.LiveOn(k, DayNumber(today) - EPOCH_DAY);
    AtMostOneLivePlacementADay(h, delta, epsilon, k, DayNumber(today) - EPOCH_DAY);
    LiveOrdersOfBudget(h, delta, epsilon, k, today, live);
    OneWithinBudget(live, h.run.kinds[k].strategy, BudgetFor(PqpRunsToday(today), ApRunsToday(today)));
  }

  lemma OneWithinBudget(live: seq<Placement>, strategy: Strategy, budget: Budget)
    requires |live| <= 1 && 0.0 <= budget.pqpBuy && 0.0 <= budget.pqpSell && 0.0 <= budget.apBuy
    requires forall p :: p in live ==> AreOrdersOf(strategy, budget, p.orders)
    ensures TotalValue(live) <= StrategyBudget(strategy, budget)
  {
    if live != [] {
      assert live[0] in live;
      var events :| Tradable(strategy, events) && live[0].orders == OrdersFor(strategy, budget, events);
      OrdersWithinBudget(strategy, budget, events);
      assert TotalValue(live[1..]) == 0.0;
    }
  }

  lemma {:induction false} LiveInTurnOfBudget(h: History, delta: int, epsilon: int, i: nat, k: nat, today: Date)
    requires h.Prompt(k, delta, epsilon, 28 * MINUTE) && Eastern(h.run.zone)
    requires i < |h.run.turns| && k < |h.run.kinds| && h.run.kinds[k].FastRun? && ValidDate(today)
    ensures var live := h.LiveIn(i, k, DayNumber(today) - EPOCH_DAY);
      var strategy, budget := h.run.kinds[k].strategy, DayBudget(today);
      live == [] || (
        |live| == 1 && !live[0].isSimulation && AreOrdersOf(strategy, budget, live[0].orders))
  {
    var date := DayNumber(today) - EPOCH_DAY;
    LiveInTurn(h, delta, epsilon, i, k, date);
    var live := h.LiveIn(i, k, date);
    if live != [] {
      var input := h.inputs[i][k];
      RunPlacesOnce(h.run.zone, h.run.kinds[k].strategy, false, input);
      var pass := RunPlacesFrom(h.run.zone, h.run.kinds[k].strategy, false, input, live[0]);
      LiveRunDate(h, delta, epsilon, i, k);
      assert h.PromptRun(i, k, 28 * MINUTE);
      DayNumberInjective(input.today, today);
      assert live == [live[0]] && live[0] in live;
    }
  }

  /** The PQP and the AP task together order at most 200,000 live on any Eastern date, and nothing on a date on which
      neither strategy rebalances. */
  lemma {:induction false} DailyLiveValueIsBounded(h: History, delta: int, epsilon: int, pqp: nat, ap: nat, today: Date)
    requires h.Prompt(pqp, delta, epsilon, 28 * MINUTE) && h.Prompt(ap, delta, epsilon, 28 * MINUTE)
    requires Eastern(h.run.zone) && ValidDate(today)
    requires h.run.kinds[pqp] == FastRun(Pqp) && h.run.kinds[ap] == FastRun(Ap)
    ensures var date := DayNumber(today) - EPOCH_DAY;
      TotalValue(h.LiveOn(pqp, date)) + TotalValue(h.LiveOn(ap, date)) <=
        if PqpRunsToday(today) || ApRunsToday(today) then 200000.0 else 0.0
  {
    var pqpRuns, apRuns := PqpRunsToday(today), ApRunsToday(today);
    LiveWithinBudget(h, delta, epsilon, pqp, today);
    LiveWithinBudget(h, delta, epsilon, ap, today);
    BudgetsAddUp(BudgetFor(pqpRuns, apRuns), pqpRuns, apRuns);
  }

  lemma BudgetsAddUp(budget: Budget, pqpRuns: bool, apRuns: bool)
    requires budget == BudgetFor(pqpRuns, apRuns)
    ensures StrategyBudget(Pqp, budget) + StrategyBudget(Ap, budget) == if pqpRuns || apRuns then 200000.0 else 0.0
  {
  }
}
