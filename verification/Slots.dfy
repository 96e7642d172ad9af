/** The daily trigger times of the FastRunner tasks (src/rqcoresrv/src/robotrader/fast_runner_task.rs). */
module Slots {
  import opened LocalTime

  /** The two tasks: Seeking Alpha's PRO Quant Portfolio and Alpha Picks. */
  datatype Strategy = Pqp | Ap

  function TriggerSlots(strategy: Strategy): seq<int> {
    match strategy
    case Pqp => [
      9 * HOUR + 45 * MINUTE + 10 * SECOND,
      11 * HOUR + 1 * MINUTE + 10 * SECOND,
      11 * HOUR + 30 * MINUTE + 10 * SECOND,
      11 * HOUR + 59 * MINUTE + 10 * SECOND]
    case Ap => [
      9 * HOUR + 50 * MINUTE + 10 * SECOND,
      11 * HOUR + 5 * MINUTE + 20 * SECOND,
      11 * HOUR + 30 * MINUTE + 20 * SECOND,
      11 * HOUR + 59 * MINUTE + 20 * SECOND]
  }

  function MinOf(s: seq<int>): (m: int)
    requires s != []
    ensures m in s && forall x :: x in s ==> m <= x
  {
    if |s| == 1 then s[0]
    else
      var m := MinOf(s[1..]);
      assert s == [s[0]] + s[1..];
      if s[0] <= m then s[0] else m
  }

  lemma MinOfIs(s: seq<int>, i: nat)
    requires i < |s| && forall j :: 0 <= j < |s| ==> s[i] <= s[j]
    ensures MinOf(s) == s[i]
  {
    assert s[i] in s;
  }

  /** The future instants of all slots; the clock is read once per slot. */
  function FutureInstants(z: Zone, slots: seq<int>, readings: seq<int>): (r: seq<int>)
    requires |slots| == |readings|
    ensures |r| == |slots|
  {
    seq(|slots|, i requires 0 <= i < |slots| => FutureLocalTime(z, readings[i], slots[i]))
  }

  /** get_next_trigger_time_impl */
  function NextTrigger(z: Zone, slots: seq<int>, readings: seq<int>): int
    requires |slots| == |readings| > 0
  {
    MinOf(FutureInstants(z, slots, readings))
  }

  // ---------- The sequence of all slot instants ----------

  // Two slots of one task are never closer than this.
  const GAP := 25 * MINUTE

  ghost predicate ValidSlots(slots: seq<int>) {
    && |slots| == 4
    && 3 * HOUR <= slots[0]
    && slots[0] + GAP <= slots[1] && slots[1] + GAP <= slots[2] && slots[2] + GAP <= slots[3]
    && slots[3] <= 12 * HOUR
  }

  lemma TriggerSlotsAreValid(strategy: Strategy)
    ensures ValidSlots(TriggerSlots(strategy))
  {
  }

  /** The slots in seconds before noon; PQP comes before AP at each of them. */
  lemma SlotsBeforeNoon(i: nat)
    requires i < 4
    ensures TriggerSlots(Pqp)[i] == 12 * HOUR - [8090, 3530, 1790, 50][i] * SECOND
    ensures TriggerSlots(Ap)[i] == 12 * HOUR - [7790, 3280, 1780, 40][i] * SECOND
    ensures TriggerSlots(Pqp)[i] < TriggerSlots(Ap)[i]
  {
  }

  /** Slot number n: slot n % 4 on date n / 4. */
  function SlotAt(z: Zone, slots: seq<int>, n: int): int
    requires |slots| == 4
  {
    InstantOf(z, n / 4, slots[n % 4])
  }

  ghost predicate IsSlotInstant(z: Zone, strategy: Strategy, t: int) {
    exists n: int :: t == SlotAt(z, TriggerSlots(strategy), n)
  }

  lemma NextSlotIsLater(z: Zone, slots: seq<int>, n: int)
    requires EarlyChanges(z) && ValidSlots(slots)
    ensures SlotAt(z, slots, n) + GAP <= SlotAt(z, slots, n + 1)
  {
    assert EarlyChangeOn(z, n / 4) && EarlyChangeOn(z, n / 4 + 1);
    if n % 4 == 3 {
      assert (n + 1) / 4 == n / 4 + 1 && (n + 1) % 4 == 0;
    } else {
      assert (n + 1) / 4 == n / 4 && (n + 1) % 4 == n % 4 + 1;
    }
  }

  lemma {:induction false} SlotsIncrease(z: Zone, slots: seq<int>, m: int, n: int)
    requires EarlyChanges(z) && ValidSlots(slots) && m < n
    ensures SlotAt(z, slots, m) + GAP <= SlotAt(z, slots, n)
    decreases n - m
  {
    NextSlotIsLater(z, slots, n - 1);
    if m < n - 1 { SlotsIncrease(z, slots, m, n - 1); }
  }

  /** A later instant has a larger number, so the numbering has no repetition. */
  lemma SlotOrder(z: Zone, slots: seq<int>, m: int, n: int)
    requires EarlyChanges(z) && ValidSlots(slots)
    ensures m < n <==> SlotAt(z, slots, m) < SlotAt(z, slots, n)
  {
    if m < n { SlotsIncrease(z, slots, m, n); }
    if n < m { SlotsIncrease(z, slots, n, m); }
  }

  /** The number of the instant that one slot contributes to the minimum. */
  function SlotNumber(z: Zone, slots: seq<int>, i: nat, reading: int): int
    requires i < |slots| == 4
  {
    4 * FutureDate(z, reading, slots[i]) + i
  }

  lemma FutureInstantIsSlot(z: Zone, slots: seq<int>, i: nat, reading: int)
    requires EarlyChanges(z) && ValidSlots(slots) && i < 4
    ensures FutureLocalTime(z, reading, slots[i]) == SlotAt(z, slots, SlotNumber(z, slots, i, reading))
    ensures reading < FutureLocalTime(z, reading, slots[i])
  {
    FutureLocalTimeIsFuture(z, reading, slots[i]);
    var n := SlotNumber(z, slots, i, reading);
    assert n / 4 == FutureDate(z, reading, slots[i]) && n % 4 == i;
  }

  /** Whatever the four readings, the trigger is some slot instant later than all instants before the readings. */
  lemma NextTriggerIsSlot(z: Zone, slots: seq<int>, readings: seq<int>, now: int) returns (n: int)
    requires EarlyChanges(z) && ValidSlots(slots) && |readings| == 4
    requires forall i :: 0 <= i < 4 ==> now <= readings[i]
    ensures NextTrigger(z, slots, readings) == SlotAt(z, slots, n)
    ensures now < NextTrigger(z, slots, readings)
  {
    var r := NextTrigger(z, slots, readings);
    var i :| 0 <= i < 4 && FutureInstants(z, slots, readings)[i] == r;
    FutureInstantIsSlot(z, slots, i, readings[i]);
    n := SlotNumber(z, slots, i, readings[i]);
  }

  /** A slot instant that no slot instant separates from now. */
  ghost predicate IsNextSlot(z: Zone, slots: seq<int>, now: int, n: int)
    requires |slots| == 4
  {
    SlotAt(z, slots, n - 1) <= now < SlotAt(z, slots, n)
  }

  /** Of the four instants none is before the next slot, and that slot's own instant is it unless a date is skipped. */
  lemma Contribution(z: Zone, slots: seq<int>, i: nat, reading: int, n: int)
    requires EarlyChanges(z) && ValidSlots(slots) && i < 4
    requires IsNextSlot(z, slots, reading, n)
    ensures SlotAt(z, slots, n) <= FutureLocalTime(z, reading, slots[i])
    ensures i == n % 4 && !SkipsDate(z, reading) ==> FutureLocalTime(z, reading, slots[i]) == SlotAt(z, slots, n)
  {
    FutureInstantIsSlot(z, slots, i, reading);
    var m := SlotNumber(z, slots, i, reading);
    SlotOrder(z, slots, n - 1, m);
    SlotOrder(z, slots, m, n);
    if i == n % 4 && !SkipsDate(z, reading) {
      FutureLocalTimeEarliestIff(z, reading, slots[i]);
      InstantOfReads(z, n / 4, slots[i]);
    }
  }

  /** If no slot instant falls between the readings, and none is in the exceptional last hours before a short date,
      the trigger is the earliest slot instant after them. */
  lemma {:induction false} NextTriggerIsNextSlot(z: Zone, slots: seq<int>, readings: seq<int>, n: int)
    requires EarlyChanges(z) && ValidSlots(slots) && |readings| == 4
    requires forall i :: 0 <= i < 4 ==> IsNextSlot(z, slots, readings[i], n) && !SkipsDate(z, readings[i])
    ensures NextTrigger(z, slots, readings) == SlotAt(z, slots, n)
  {
    var all := FutureInstants(z, slots, readings);
    var k := n % 4;
    Contribution(z, slots, k, readings[k], n);
    forall i | 0 <= i < |all| ensures all[k] <= all[i] {
      Contribution(z, slots, i, readings[i], n);
    }
    MinOfIs(all, k);
  }

  /** With one reading the trigger is the earliest slot instant after it, over all dates, except exactly in the last
      hours before a short date. */
  lemma {:induction false} NextTriggerEarliestIff(z: Zone, slots: seq<int>, now: int, n: int)
    requires EarlyChanges(z) && ValidSlots(slots)
    requires IsNextSlot(z, slots, now, n)
    ensures NextTrigger(z, slots, [now, now, now, now]) == SlotAt(z, slots, n) <==> !SkipsDate(z, now)
  {
    var readings := [now, now, now, now];
    if !SkipsDate(z, now) {
      NextTriggerIsNextSlot(z, slots, readings, n);
    } else {
      SkippedTrigger(z, slots, now, n);
    }
  }

  /** In the exceptional hours even the first slot of the skipped date is passed over. */
  lemma {:induction false} SkippedTrigger(z: Zone, slots: seq<int>, now: int, n: int)
    requires EarlyChanges(z) && ValidSlots(slots)
    requires IsNextSlot(z, slots, now, n) && SkipsDate(z, now)
    ensures SlotAt(z, slots, n) < NextTrigger(z, slots, [now, now, now, now])
  {
    var all := FutureInstants(z, slots, [now, now, now, now]);
    var d := LocalDate(z, now);
    AheadIff(z, now, d + 1, slots[0]);
    SlotOrder(z, slots, n - 1, 4 * (d + 1));
    forall i | 0 <= i < 4 ensures SlotAt(z, slots, n) < all[i] {
      SkipsOnlyLate(z, now);
      TomorrowsDate(z, now);
      FutureInstantIsSlot(z, slots, i, now);
      SlotOrder(z, slots, n, SlotNumber(z, slots, i, now));
    }
  }

  /** Dates are skipped only from readings in the last three hours of a day. */
  lemma SkipsOnlyLate(z: Zone, now: int)
    requires EarlyChanges(z) && SkipsDate(z, now)
    ensures 21 * HOUR <= TimeOfDay(z, now)
  {
    assert EarlyChangeOn(z, LocalDate(z, now) + 1);
  }

  /** The clock within half a day of a slot. */
  lemma ShortlyAfterSlot(z: Zone, slots: seq<int>, n: int, t: int)
    requires EarlyChanges(z) && ValidSlots(slots)
    requires SlotAt(z, slots, n) <= t < SlotAt(z, slots, n) + 9 * HOUR
    ensures LocalDate(z, t) == n / 4
    ensures TimeOfDay(z, t) == slots[n % 4] + t - SlotAt(z, slots, n)
    ensures !SkipsDate(z, t)
  {
    var target := slots[n % 4] + t - SlotAt(z, slots, n);
    assert t == InstantOf(z, n / 4, target);
    InstantOfReads(z, n / 4, target);
    if SkipsDate(z, t) { SkipsOnlyLate(z, t); }
  }

  /** Readings taken less than 25 minutes after a slot give the slot after it: the slots are visited in turn, none
      skipped and none repeated. */
  lemma {:induction false} TimelyUpdateVisitsNextSlot(z: Zone, slots: seq<int>, n: int, readings: seq<int>)
    requires EarlyChanges(z) && ValidSlots(slots) && |readings| == 4
    requires forall i :: 0 <= i < 4 ==> SlotAt(z, slots, n) <= readings[i] < SlotAt(z, slots, n) + GAP
    ensures NextTrigger(z, slots, readings) == SlotAt(z, slots, n + 1)
  {
    NextSlotIsLater(z, slots, n);
    forall i | 0 <= i < 4
      ensures IsNextSlot(z, slots, readings[i], n + 1) && !SkipsDate(z, readings[i])
    {
      ShortlyAfterSlot(z, slots, n, readings[i]);
    }
    NextTriggerIsNextSlot(z, slots, readings, n + 1);
  }
}
