/** The task scheduler: tasks with a next trigger time, and the loop that spawns the due ones, moves their trigger
    times on and sleeps until the soonest (src/rqcoresrv/src/services/rqtask_scheduler.rs). */
module Scheduler {
  import opened LocalTime
  import opened Slots
  import opened Wrappers

  datatype TaskKind = Heartbeat | FastRun(strategy: Strategy)

  /** How often the task reads the clock to find its next trigger time. */
  function NumReadings(kind: TaskKind): nat {
    if kind.Heartbeat? then 1 else 4
  }

  function UpdatedTime(z: Zone, kind: TaskKind, readings: seq<int>): int
    requires |readings| == NumReadings(kind)
  {
    match kind
    case Heartbeat => readings[0] + 10 * MINUTE
    case FastRun(strategy) => NextTrigger(z, TriggerSlots(strategy), readings)
  }

  /** An instant at which a task of this kind may be triggered: any for the heartbeat, a slot for the others. */
  ghost predicate IsTrigger(z: Zone, kind: TaskKind, t: int) {
    kind.FastRun? ==> IsSlotInstant(z, kind.strategy, t)
  }

  /** An update leads strictly beyond its clock readings, to an instant at which the task may be triggered. */
  lemma UpdatedTimeIsLater(z: Zone, kind: TaskKind, readings: seq<int>, now: int)
    requires EarlyChanges(z) && |readings| == NumReadings(kind)
    requires forall r :: 0 <= r < |readings| ==> now <= readings[r]
    ensures now < UpdatedTime(z, kind, readings) && IsTrigger(z, kind, UpdatedTime(z, kind, readings))
  {
    if kind.FastRun? {
      TriggerSlotsAreValid(kind.strategy);
      var n := NextTriggerIsSlot(z, TriggerSlots(kind.strategy), readings, now);
    }
  }

  class RqTask {
    const kind: TaskKind
    var nextTime: int

    constructor (z: Zone, kind: TaskKind, readings: seq<int>)
      requires |readings| == NumReadings(kind)
      ensures this.kind == kind && nextTime == UpdatedTime(z, kind, readings)
    {
      this.kind := kind;
      nextTime := UpdatedTime(z, kind, readings);
    }

    method UpdateNextTriggerTime(z: Zone, readings: seq<int>)
      requires |readings| == NumReadings(kind)
      modifies this
      ensures nextTime == UpdatedTime(z, kind, readings)
      ensures EarlyChanges(z) ==> MinOf(readings) < nextTime && IsTrigger(z, kind, nextTime)
    {
      nextTime := UpdatedTime(z, kind, readings);
      if EarlyChanges(z) {
        assert forall r :: 0 <= r < |readings| ==> readings[r] in readings;
        UpdatedTimeIsLater(z, kind, readings, MinOf(readings));
      }
    }
  }

  // ---------- One turn of the loop, on values ----------

  /** The tasks among the first n that are due, in the order of the registry. */
  function DueTasks(times: seq<int>, now: int, n: nat): (due: seq<nat>)
    requires n <= |times|
    ensures forall i :: 0 <= i < |due| ==> due[i] < n && times[due[i]] <= now
  {
    if n == 0 then []
    else DueTasks(times, now, n - 1) + (if times[n - 1] <= now then [n - 1] else [])
  }

  ghost predicate ReadingsFit(kinds: seq<TaskKind>, readings: seq<seq<int>>) {
    |readings| == |kinds| && forall k :: 0 <= k < |kinds| ==> |readings[k]| == NumReadings(kinds[k])
  }

  /** The next trigger time of each task if it is updated with these readings. */
  function Updates(z: Zone, kinds: seq<TaskKind>, readings: seq<seq<int>>): (r: seq<int>)
    requires ReadingsFit(kinds, readings)
    ensures |r| == |kinds|
  {
    seq(|kinds|, k requires 0 <= k < |kinds| => UpdatedTime(z, kinds[k], readings[k]))
  }

  /** The trigger times after a turn in which the due tasks were updated. */
  function TimesAfterTurn(times: seq<int>, now: int, updates: seq<int>): (r: seq<int>)
    requires |updates| == |times|
    ensures |r| == |times|
  {
    seq(|times|, k requires 0 <= k < |times| => if times[k] <= now then updates[k] else times[k])
  }

  function Soonest(times: seq<int>): Option<int> {
    if times == [] then None else Some(MinOf(times))
  }

  /** The time slept at the end of a turn that began at now. */
  function Pause(times: seq<int>, now: int): int {
    match Soonest(times)
    case Some(s) => if s > now then s - now else 0
    case None => 60 * SECOND
  }

  // ---------- The scheduler object ----------

  ghost predicate Distinct(tasks: seq<RqTask>) {
    forall i, j :: 0 <= i < j < |tasks| ==> tasks[i] != tasks[j]
  }

  lemma DistinctSnoc(tasks: seq<RqTask>, task: RqTask)
    ensures Distinct(tasks + [task]) <==> Distinct(tasks) && task !in tasks
  {
    var all := tasks + [task];
    assert forall i :: 0 <= i < |tasks| ==> all[i] == tasks[i];
    assert all[|tasks|] == task;
    if Distinct(all) {
      forall i, j | 0 <= i < j < |tasks| ensures tasks[i] != tasks[j] { assert all[i] != all[j]; }
    }
  }

  ghost function Kinds(tasks: seq<RqTask>): (kinds: seq<TaskKind>)
    ensures |kinds| == |tasks|
  {
    seq(|tasks|, i requires 0 <= i < |tasks| => tasks[i].kind)
  }

  class RqTaskScheduler {
    var tasks: seq<RqTask>

    constructor ()
      ensures tasks == []
    {
      tasks := [];
    }

    ghost function Times(): (times: seq<int>)
      reads this, tasks
      ensures |times| == |tasks|
    {
      seq(|tasks|, i requires 0 <= i < |tasks| reads this, tasks => tasks[i].nextTime)
    }

    method ScheduleTask(task: RqTask)
      modifies this
      ensures tasks == old(tasks) + [task]
      ensures Times() == old(Times()) + [task.nextTime]
      ensures Distinct(tasks) <==> old(Distinct(tasks)) && task !in old(tasks)
    {
      DistinctSnoc(tasks, task);
      tasks := tasks + [task];
    }

    /** The first part of a turn: note which tasks are due. */
    method CollectDue(now: int) returns (due: seq<nat>)
      ensures due == DueTasks(Times(), now, |tasks|)
    {
      due := [];
      for k := 0 to |tasks|
        invariant due == DueTasks(Times(), now, k)
      {
        if tasks[k].nextTime <= now { due := due + [k]; }
      }
    }

    /** The second part: spawn the due tasks and move their trigger times on. */
    method SpawnDue(z: Zone, due: seq<nat>, readings: seq<seq<int>>) returns (spawned: seq<nat>)
      requires ReadingsFit(Kinds(tasks), readings)
      requires forall e :: 0 <= e < |due| ==> due[e] < |tasks|
      modifies tasks
      ensures spawned == due
      ensures Times() == TimesAfterSpawns(tasks, old(Times()), due, Updates(z, Kinds(tasks), readings))
    {
      ghost var updates := Updates(z, Kinds(tasks), readings);
      spawned := [];
      for d := 0 to |due|
        invariant spawned == due[..d]
        invariant forall k :: 0 <= k < |tasks| ==>
          tasks[k].nextTime == TimeAfterSpawns(tasks, old(tasks[k].nextTime), due[..d], updates, k)
      {
        spawned := spawned + [due[d]];
        tasks[due[d]].UpdateNextTriggerTime(z, readings[due[d]]);
        assert due[..d + 1][..d] == due[..d];
      }
      assert due[..|due|] == due;
    }

    /** The third part: the time to sleep until the soonest trigger. */
    method ChoosePause(now: int) returns (pause: int)
      ensures pause == Pause(Times(), now)
    {
      var soonest: Option<int> := None;
      for k := 0 to |tasks|
        invariant soonest == Soonest(Times()[..k])
      {
        MinOfSnoc(Times()[..k], Times()[k]);
        assert Times()[..k + 1] == Times()[..k] + [Times()[k]];
        var trigger := tasks[k].nextTime;
        match soonest {
          case Some(s) => if trigger < s { soonest := Some(trigger); }
          case None => soonest := Some(trigger);
        }
      }
      assert Times()[..|tasks|] == Times();
      match soonest {
        case Some(s) => pause := if s > now then s - now else 0;
        case None => pause := 60 * SECOND;
      }
    }

    /** One turn of the endless loop, from its clock reading to the length of its sleep. readings[k] are the clock
        readings of task k's update, used if it is due. */
    method Turn(z: Zone, now: int, readings: seq<seq<int>>) returns (spawned: seq<nat>, pause: int)
      requires ReadingsFit(Kinds(tasks), readings)
      modifies tasks
      ensures spawned == DueTasks(old(Times()), now, |tasks|)
      ensures Times() == TimesAfterSpawns(tasks, old(Times()), spawned, Updates(z, Kinds(tasks), readings))
      ensures Distinct(tasks) ==> Times() == TimesAfterTurn(old(Times()), now, Updates(z, Kinds(tasks), readings))
      ensures pause == Pause(Times(), now)
    {
      ghost var times := Times();
      var due := CollectDue(now);
      spawned := SpawnDue(z, due, readings);
      if Distinct(tasks) { TurnOfDistinctTasks(tasks, times, now, Updates(z, Kinds(tasks), readings)); }
      pause := ChoosePause(now);
    }
  }

  /** Task k's trigger time once the tasks in due have been spawned and updated. The registry may hold a task twice;
      its last update then counts. */
  ghost function TimeAfterSpawns(tasks: seq<RqTask>, time: int, due: seq<nat>, updates: seq<int>, k: nat): int
    requires |updates| == |tasks| && k < |tasks|
    requires forall e :: 0 <= e < |due| ==> due[e] < |tasks|
  {
    if due == [] then time
    else
      var last := due[|due| - 1];
      if tasks[last] == tasks[k] then updates[last] else TimeAfterSpawns(tasks, time, due[..|due| - 1], updates, k)
  }

  lemma {:induction false} SpawnOfDistinctTask(tasks: seq<RqTask>, time: int, due: seq<nat>, updates: seq<int>, k: nat)
    requires |updates| == |tasks| && k < |tasks|
    requires forall e :: 0 <= e < |due| ==> due[e] < |tasks|
    requires forall j :: 0 <= j < |tasks| && tasks[j] == tasks[k] ==> j == k
    ensures TimeAfterSpawns(tasks, time, due, updates, k) == if k in due then updates[k] else time
  {
    if due != [] {
      var init, last := due[..|due| - 1], due[|due| - 1];
      SpawnOfDistinctTask(tasks, time, init, updates, k);
      assert due == init + [last];
    }
  }

  ghost function TimesAfterSpawns(tasks: seq<RqTask>, times: seq<int>, due: seq<nat>, updates: seq<int>): (r: seq<int>)
    requires |updates| == |times| == |tasks|
    requires forall e :: 0 <= e < |due| ==> due[e] < |tasks|
    ensures |r| == |tasks|
  {
    seq(|tasks|, k requires 0 <= k < |tasks| => TimeAfterSpawns(tasks, times[k], due, updates, k))
  }

  lemma TurnOfDistinctTasks(tasks: seq<RqTask>, times: seq<int>, now: int, updates: seq<int>)
    requires Distinct(tasks) && |updates| == |times| == |tasks|
    ensures TimesAfterSpawns(tasks, times, DueTasks(times, now, |tasks|), updates) == TimesAfterTurn(times, now, updates)
  {
    var due := DueTasks(times, now, |tasks|);
    forall k | 0 <= k < |tasks|
      ensures TimesAfterSpawns(tasks, times, due, updates)[k] == TimesAfterTurn(times, now, updates)[k]
    {
      SpawnOfDistinctTask(tasks, times[k], due, updates, k);
      DueTasksExact(times, now, |tasks|);
    }
  }

  lemma MinOfSnoc(s: seq<int>, x: int)
    ensures MinOf(s + [x]) == if s == [] then x else if x < MinOf(s) then x else MinOf(s)
  {
    if s != [] {
      var m := MinOf(s + [x]);
      assert MinOf(s) in s + [x] && x in s + [x];
      assert m in s || m == x;
    }
  }

  /** Every due task is spawned exactly once, and no other task is. */
  lemma {:induction false} DueTasksExact(times: seq<int>, now: int, n: nat)
    requires n <= |times|
    ensures var due := DueTasks(times, now, n);
      && (forall k: nat :: k in due <==> k < n && times[k] <= now)
      && (forall i, j :: 0 <= i < j < |due| ==> due[i] < due[j])
  {
    if n > 0 { DueTasksExact(times, now, n - 1); }
  }
}
