/** Whole runs of the scheduler loop over a fixed set of distinct tasks and an arbitrary clock. */
module SchedulerRuns {
  import opened LocalTime
  import opened Slots
  import opened Scheduler

  /** One turn: its clock reading, the readings taken by the updates of the tasks, and the clock when the body ends
      and the sleep begins. */
  datatype TurnRecord = TurnRecord(now: int, readings: seq<seq<int>>, end: int)

  /** times[i] are the trigger times of the tasks before turn i; there is one more entry than there are turns. */
  datatype Run = Run(zone: Zone, kinds: seq<TaskKind>, turns: seq<TurnRecord>, times: seq<seq<int>>) {
    ghost predicate WellFormed() {
      && EarlyChanges(zone)
      && |times| == |turns| + 1
      && (forall i :: 0 <= i < |times| ==> |times[i]| == |kinds|)
      && forall i :: 0 <= i < |turns| ==> TurnUpdates(i)
    }

    /** Turn i leaves the trigger times that the scheduler's loop body leaves. */
    ghost predicate TurnUpdates(i: nat)
      requires i < |turns| && i + 1 < |times| && |times[i]| == |kinds|
    {
      && ReadingsFit(kinds, turns[i].readings)
      && times[i + 1] == TimesAfterTurn(times[i], turns[i].now, Updates(zone, kinds, turns[i].readings))
    }

    /** Task k is spawned by turn i. */
    ghost predicate Fires(i: nat, k: nat)
      requires WellFormed() && i < |turns| && k < |kinds|
    {
      times[i][k] <= turns[i].now
    }

    /** The clock never goes back; a body takes at most delta, a sleep lasts at least as long as asked and at most
        epsilon longer. */
    ghost predicate TurnPaced(i: nat, delta: int, epsilon: int)
      requires WellFormed() && i < |turns|
    {
      && TurnUpdates(i)
      && turns[i].now <= turns[i].end <= turns[i].now + delta
      && (forall k, r :: 0 <= k < |kinds| && Fires(i, k) && 0 <= r < NumReadings(kinds[k]) ==>
        turns[i].now <= turns[i].readings[k][r] <= turns[i].end)
      && (i > 0 ==>
        var wake := turns[i - 1].end + Pause(times[i], turns[i - 1].now);
        wake <= turns[i].now <= wake + epsilon)
    }

    ghost predicate Paced(delta: int, epsilon: int) {
      WellFormed() && forall i :: 0 <= i < |turns| ==> TurnPaced(i, delta, epsilon)
    }
  }

  /** After a turn every trigger time lies beyond the turn's clock reading, so a due trigger has been replaced by a
      strictly later one. */
  lemma TriggersAhead(run: Run, delta: int, epsilon: int, i: nat, k: nat)
    requires run.Paced(delta, epsilon) && i < |run.turns| && k < |run.kinds|
    ensures run.turns[i].now < run.times[i + 1][k]
    ensures run.times[i][k] <= run.times[i + 1][k]
    ensures run.Fires(i, k) <==> run.times[i][k] < run.times[i + 1][k]
  {
    var turn := run.turns[i];
    assert run.TurnPaced(i, delta, epsilon) && run.TurnUpdates(i);
    if run.Fires(i, k) { UpdatedTimeIsLater(run.zone, run.kinds[k], turn.readings[k], turn.now); }
  }

  /** So with at least one task the loop sleeps a positive time after every turn, and the next turn finds a due task. */
  lemma SleepsAndProgresses(run: Run, delta: int, epsilon: int, i: nat) returns (k: nat)
    requires run.Paced(delta, epsilon) && i + 1 < |run.turns| && run.kinds != []
    ensures 0 < Pause(run.times[i + 1], run.turns[i].now)
    ensures run.turns[i].now < run.turns[i + 1].now
    ensures k < |run.kinds| && run.Fires(i + 1, k)
  {
    var times := run.times[i + 1];
    var soonest := MinOf(times);
    k :| 0 <= k < |times| && times[k] == soonest;
    TriggersAhead(run, delta, epsilon, i, k);
    assert run.TurnPaced(i, delta, epsilon) && run.TurnPaced(i + 1, delta, epsilon);
  }

  /** Bounded lateness: a trigger fired by any turn but the first is fired at most delta + epsilon late. */
  lemma BoundedLateness(run: Run, delta: int, epsilon: int, i: nat, k: nat)
    requires run.Paced(delta, epsilon) && 0 < i < |run.turns| && k < |run.kinds|
    ensures run.turns[i].now <= run.times[i][k] + delta + epsilon
  {
    var times := run.times[i];
    var m := MinOf(times);
    var j :| 0 <= j < |times| && times[j] == m;
    TriggersAhead(run, delta, epsilon, i - 1, j);
    assert times[k] in times;
    assert run.TurnPaced(i, delta, epsilon) && run.TurnPaced(i - 1, delta, epsilon);
  }

  lemma {:induction false} TriggersNeverDecrease(run: Run, delta: int, epsilon: int, i: nat, j: nat, k: nat)
    requires run.Paced(delta, epsilon) && i <= j <= |run.turns| && k < |run.kinds|
    ensures run.times[i][k] <= run.times[j][k]
    decreases j - i
  {
    if i < j {
      TriggersNeverDecrease(run, delta, epsilon, i, j - 1, k);
      TriggersAhead(run, delta, epsilon, j - 1, k);
    }
  }

  /** A task never fires twice for one trigger: of two firings the later has the strictly later trigger. */
  lemma FiringsHaveDistinctTriggers(run: Run, delta: int, epsilon: int, i: nat, j: nat, k: nat)
    requires run.Paced(delta, epsilon) && i < j < |run.turns| && k < |run.kinds|
    requires run.Fires(i, k)
    ensures run.times[i][k] < run.times[j][k]
  {
    TriggersAhead(run, delta, epsilon, i, k);
    TriggersNeverDecrease(run, delta, epsilon, i + 1, j, k);
  }

  /** Two runs of the heartbeat are at least ten minutes apart, and the next one falls due no later than ten minutes
      after the body that fired it. */
  lemma HeartbeatSpacing(run: Run, delta: int, epsilon: int, i: nat, j: nat, k: nat)
    requires run.Paced(delta, epsilon) && i < j < |run.turns| && k < |run.kinds| && run.kinds[k] == Heartbeat
    requires run.Fires(i, k) && run.Fires(j, k)
    ensures run.turns[i].now + 10 * MINUTE <= run.turns[j].now
    ensures run.times[i + 1][k] <= run.turns[i].now + delta + 10 * MINUTE
  {
    assert run.TurnPaced(i, delta, epsilon) && run.TurnUpdates(i);
    TriggersNeverDecrease(run, delta, epsilon, i + 1, j, k);
  }

  /** Without any task the loop looks again every minute, up to its own delays. */
  lemma IdleTurns(run: Run, delta: int, epsilon: int, i: nat)
    requires run.Paced(delta, epsilon) && run.kinds == [] && i + 1 < |run.turns|
    ensures run.turns[i].now + MINUTE <= run.turns[i + 1].now <= run.turns[i].now + MINUTE + delta + epsilon
  {
    assert run.TurnPaced(i, delta, epsilon) && run.TurnPaced(i + 1, delta, epsilon);
  }

  /** Turn j is the first from turn i on whose clock has reached the trigger. */
  ghost predicate FirstToReach(run: Run, i: nat, j: nat, trigger: int) {
    && i <= j < |run.turns|
    && trigger <= run.turns[j].now
    && forall m :: i <= m < j ==> run.turns[m].now < trigger
  }

  lemma {:induction false} PendingUntilReached(run: Run, i: nat, j: nat, k: nat)
    requires run.WellFormed() && i <= j <= |run.turns| && k < |run.kinds|
    requires forall m :: i <= m < j ==> run.turns[m].now < run.times[i][k]
    ensures run.times[j][k] == run.times[i][k]
    decreases j - i
  {
    if i < j {
      PendingUntilReached(run, i, j - 1, k);
      assert run.TurnUpdates(j - 1);
    }
  }

  /** Every trigger registered before turn i that the clock has reached by some turn is fired, by the first turn that
      reaches it; and unless that is the turn i = 0, at most delta + epsilon late. */
  lemma EveryTriggerFires(run: Run, delta: int, epsilon: int, i: nat, k: nat) returns (j: nat)
    requires run.Paced(delta, epsilon) && i < |run.turns| && k < |run.kinds|
    requires run.times[i][k] <= run.turns[|run.turns| - 1].now
    ensures FirstToReach(run, i, j, run.times[i][k])
    ensures run.Fires(j, k) && run.times[j][k] == run.times[i][k]
    ensures 0 < j ==> run.turns[j].now <= run.times[i][k] + delta + epsilon
  {
    j := i;
    while run.turns[j].now < run.times[i][k]
      invariant i <= j < |run.turns|
      invariant forall m :: i <= m < j ==> run.turns[m].now < run.times[i][k]
      decreases |run.turns| - j
    {
      j := j + 1;
    }
    PendingUntilReached(run, i, j, k);
    if 0 < j { BoundedLateness(run, delta, epsilon, j, k); }
  }
}
