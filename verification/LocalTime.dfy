/** Local wall-clock time in a zone, and the helper that turns a time of day into a future instant
    (src/common/rqcommon/src/utils/time.rs). Instants and durations are in nanoseconds, as chrono keeps them. */
module LocalTime {
  import opened Wrappers

  const SECOND := 1_000_000_000
  const MINUTE := 60_000_000_000
  const HOUR := 3_600_000_000_000
  const DAY := 86_400_000_000_000

  // The instant that chrono calls DateTime::<Utc>::MIN_UTC.
  const MIN_UTC := -8_334_601_228_800_000_000_000

  /** offset(d) is the UTC offset that comes into force on local date d (dates are counted from the epoch) at the
      UTC instant change(d), and stays in force until change(d + 1). On most dates it equals offset(d - 1). */
  datatype Zone = Zone(offset: int -> int, change: int -> int)

  /** The change on date d happens within the first three hours of d, on the old clock and on the new one. */
  ghost predicate EarlyChangeOn(z: Zone, d: int) {
    && -15 * HOUR <= z.offset(d) <= 15 * HOUR
    && d * DAY <= z.change(d) + z.offset(d - 1) <= d * DAY + 3 * HOUR
    && d * DAY <= z.change(d) + z.offset(d) <= d * DAY + 3 * HOUR
  }

  ghost predicate EarlyChanges(z: Zone) {
    forall d: int :: EarlyChangeOn(z, d)
  }

  /** The date whose offset is in force at instant t. */
  function Period(z: Zone, t: int): int {
    var utcDate := t / DAY;
    if z.change(utcDate + 1) <= t then utcDate + 1
    else if z.change(utcDate) <= t then utcDate
    else utcDate - 1
  }

  /** What the local clock shows at t: the local date times DAY, plus the time of day. */
  function LocalReading(z: Zone, t: int): int {
    t + z.offset(Period(z, t))
  }

  function LocalDate(z: Zone, t: int): int {
    LocalReading(z, t) / DAY
  }

  function TimeOfDay(z: Zone, t: int): (r: int)
    ensures 0 <= r < DAY
  {
    LocalReading(z, t) % DAY
  }

  /** chrono's from_local_datetime(..).earliest(): a reading of date d is shown under the offset of d - 1, under
      that of d, under both (clock set back) or under neither (clock set forward). */
  function FromLocalEarliest(z: Zone, reading: int): Option<int> {
    var d := reading / DAY;
    if reading - z.offset(d - 1) < z.change(d) then Some(reading - z.offset(d - 1))
    else if z.change(d) <= reading - z.offset(d) then Some(reading - z.offset(d))
    else None
  }

  /** Today if the target is still ahead on the local clock, else the date 24 hours from now. */
  function FutureDate(z: Zone, now: int, target: int): int {
    if TimeOfDay(z, now) < target then LocalDate(z, now) else LocalDate(z, now + DAY)
  }

  /** localtimeonly2future_datetime_tz for a clock reading of now. */
  function FutureLocalTime(z: Zone, now: int, target: int): int {
    match FromLocalEarliest(z, FutureDate(z, now, target) * DAY + target)
    case Some(t) => t
    case None => MIN_UTC
  }

  // ---------- The clock ----------

  lemma PeriodSpan(z: Zone, t: int)
    requires EarlyChanges(z)
    ensures z.change(Period(z, t)) <= t < z.change(Period(z, t) + 1)
  {
    var d := t / DAY;
    assert EarlyChangeOn(z, d - 2) && EarlyChangeOn(z, d - 1) && EarlyChangeOn(z, d);
    assert EarlyChangeOn(z, d + 1) && EarlyChangeOn(z, d + 2);
  }

  lemma PeriodIs(z: Zone, t: int, d: int)
    requires EarlyChanges(z)
    requires z.change(d) <= t < z.change(d + 1)
    ensures Period(z, t) == d
  {
    var p := Period(z, t);
    PeriodSpan(z, t);
    assert EarlyChangeOn(z, d) && EarlyChangeOn(z, d - 1) && EarlyChangeOn(z, d + 1);
    assert EarlyChangeOn(z, p) && EarlyChangeOn(z, p - 1) && EarlyChangeOn(z, p + 1);
  }

  /** The offset in force is that of the local date, or that of the date before during the first three hours. */
  lemma PeriodOfReading(z: Zone, t: int)
    requires EarlyChanges(z)
    ensures var p, d := Period(z, t), LocalDate(z, t);
      p == d || (p == d - 1 && t < z.change(d) && TimeOfDay(z, t) <= 3 * HOUR)
  {
    var p := Period(z, t);
    PeriodSpan(z, t);
    assert EarlyChangeOn(z, p) && EarlyChangeOn(z, p + 1);
  }

  /** The instant found for a local reading is the first one at which the clock shows it, and None means that the
      clock never shows it. */
  lemma FromLocalEarliestIsFirst(z: Zone, reading: int)
    requires EarlyChanges(z)
    ensures match FromLocalEarliest(z, reading)
      case Some(t) => LocalReading(z, t) == reading && forall u :: LocalReading(z, u) == reading ==> t <= u
      case None => forall u :: LocalReading(z, u) != reading
  {
    var d := reading / DAY;
    assert EarlyChangeOn(z, d - 1) && EarlyChangeOn(z, d) && EarlyChangeOn(z, d + 1);
    match FromLocalEarliest(z, reading) {
      case Some(t) => PeriodIs(z, t, if t < z.change(d) then d - 1 else d);
      case None =>
    }
    forall u | LocalReading(z, u) == reading
      ensures FromLocalEarliest(z, reading).Some? && FromLocalEarliest(z, reading).value <= u
    {
      PeriodOfReading(z, u);
      PeriodSpan(z, u);
    }
  }

  // ---------- Times of day at or after 03:00 ----------

  /** The instant at which the clock shows time of day target on date d. */
  function InstantOf(z: Zone, d: int, target: int): int {
    d * DAY + target - z.offset(d)
  }

  ghost predicate Daytime(target: int) {
    3 * HOUR <= target < DAY
  }

  lemma InstantOfReads(z: Zone, d: int, target: int)
    requires EarlyChanges(z) && Daytime(target)
    ensures LocalReading(z, InstantOf(z, d, target)) == d * DAY + target
    ensures LocalDate(z, InstantOf(z, d, target)) == d && TimeOfDay(z, InstantOf(z, d, target)) == target
    ensures FromLocalEarliest(z, d * DAY + target) == Some(InstantOf(z, d, target))
  {
    assert EarlyChangeOn(z, d) && EarlyChangeOn(z, d + 1);
    PeriodIs(z, InstantOf(z, d, target), d);
    assert (d * DAY + target) / DAY == d && (d * DAY + target) % DAY == target;
  }

  lemma ReadsIsInstantOf(z: Zone, t: int)
    requires EarlyChanges(z) && Daytime(TimeOfDay(z, t))
    ensures t == InstantOf(z, LocalDate(z, t), TimeOfDay(z, t))
  {
    PeriodOfReading(z, t);
    var d := LocalDate(z, t);
    assert EarlyChangeOn(z, d);
    if Period(z, t) == d - 1 {
      PeriodSpan(z, t);
    }
  }

  lemma InstantOfIncreases(z: Zone, d: int, e: int, target: int)
    requires EarlyChanges(z) && Daytime(target) && d < e
    ensures InstantOf(z, d, target) < InstantOf(z, e, target)
  {
    assert EarlyChangeOn(z, d) && EarlyChangeOn(z, d + 1) && EarlyChangeOn(z, e);
  }

  /** Date d + 1 is so much shorter than 24 hours that 24 hours after now is already the date after it. */
  ghost predicate SkipsDate(z: Zone, now: int) {
    var d := LocalDate(z, now);
    TimeOfDay(z, now) + z.offset(d + 1) - z.offset(d) >= DAY
  }

  lemma TomorrowsDate(z: Zone, now: int)
    requires EarlyChanges(z) && 3 * HOUR <= TimeOfDay(z, now)
    ensures LocalDate(z, now + DAY) == LocalDate(z, now) + (if SkipsDate(z, now) then 2 else 1)
  {
    var d := LocalDate(z, now);
    ReadsIsInstantOf(z, now);
    assert EarlyChangeOn(z, d) && EarlyChangeOn(z, d + 1) && EarlyChangeOn(z, d + 2) && EarlyChangeOn(z, d + 3);
    PeriodIs(z, now + DAY, if now + DAY < z.change(d + 2) then d + 1 else d + 2);
  }

  /** The target is still ahead on date d exactly when d is a later date than now's, or is now's date and the local
      clock has not reached the target. */
  lemma AheadIff(z: Zone, now: int, d: int, target: int)
    requires EarlyChanges(z) && Daytime(target)
    ensures now < InstantOf(z, d, target) <==>
      LocalDate(z, now) < d || (LocalDate(z, now) == d && TimeOfDay(z, now) < target)
  {
    var p := Period(z, now);
    PeriodOfReading(z, now);
    PeriodSpan(z, now);
    assert EarlyChangeOn(z, p) && EarlyChangeOn(z, p + 1) && EarlyChangeOn(z, d) && EarlyChangeOn(z, d + 1);
  }

  /** The result reads the target on the local clock, lies strictly after now, and is never the fallback. */
  lemma FutureLocalTimeIsFuture(z: Zone, now: int, target: int)
    requires EarlyChanges(z) && Daytime(target)
    ensures var r := FutureLocalTime(z, now, target);
      && now < r
      && TimeOfDay(z, r) == target
      && r == InstantOf(z, FutureDate(z, now, target), target)
      && FromLocalEarliest(z, LocalReading(z, r)) == Some(r)
  {
    var f := FutureDate(z, now, target);
    if target <= TimeOfDay(z, now) { TomorrowsDate(z, now); }
    InstantOfReads(z, f, target);
    AheadIff(z, now, f, target);
  }

  ghost predicate IsEarliestReading(z: Zone, now: int, target: int, r: int) {
    && now < r && TimeOfDay(z, r) == target
    && forall u :: now < u && TimeOfDay(z, u) == target ==> r <= u
  }

  /** The result is the first future instant at which the clock shows the target, except exactly when the target has
      passed today and tomorrow is shorter than what is left of the 24 hours added: then a date is skipped. */
  lemma FutureLocalTimeEarliestIff(z: Zone, now: int, target: int)
    requires EarlyChanges(z) && Daytime(target)
    ensures IsEarliestReading(z, now, target, FutureLocalTime(z, now, target)) <==>
      TimeOfDay(z, now) < target || !SkipsDate(z, now)
  {
    FutureLocalTimeIsFuture(z, now, target);
    var r := FutureLocalTime(z, now, target);
    var d := LocalDate(z, now);
    if TimeOfDay(z, now) >= target { TomorrowsDate(z, now); }
    if TimeOfDay(z, now) >= target && SkipsDate(z, now) {
      var u := InstantOf(z, d + 1, target);
      InstantOfReads(z, d + 1, target);
      AheadIff(z, now, d + 1, target);
      InstantOfIncreases(z, d + 1, d + 2, target);
      assert now < u && TimeOfDay(z, u) == target && u < r;
    } else {
      forall u | now < u && TimeOfDay(z, u) == target ensures r <= u {
        var e := LocalDate(z, u);
        ReadsIsInstantOf(z, u);
        AheadIff(z, now, e, target);
        var f := FutureDate(z, now, target);
        assert f <= e;
        if f < e { InstantOfIncreases(z, f, e, target); }
      }
    }
  }

  // ---------- US Eastern time ----------

  /** Eastern time is four or five hours behind UTC. */
  ghost predicate Eastern(z: Zone) {
    EarlyChanges(z) && forall d: int :: z.offset(d) == -5 * HOUR || z.offset(d) == -4 * HOUR
  }

  /** A zone that goes from five to four hours behind UTC at 02:00 on date 100. */
  function SpringForward(): Zone {
    Zone(d => if d < 100 then -5 * HOUR else -4 * HOUR, d => d * DAY + 2 * HOUR + (if d <= 100 then 5 * HOUR else 4 * HOUR))
  }

  /** At 23:30 before such a change, the next 11:59:10 that the helper gives is not tomorrow's but that of the date after. */
  lemma SkippedDateExample()
    ensures var z, target := SpringForward(), 11 * HOUR + 59 * MINUTE + 10 * SECOND;
      var now := InstantOf(z, 99, 23 * HOUR + 30 * MINUTE);
      && Eastern(z)
      && FutureLocalTime(z, now, target) == InstantOf(z, 101, target)
      && now < InstantOf(z, 100, target) < InstantOf(z, 101, target)
  {
    var z := SpringForward();
    var target := 11 * HOUR + 59 * MINUTE + 10 * SECOND;
    assert EarlyChanges(z) by {
      forall d: int ensures EarlyChangeOn(z, d) {}
    }
    InstantOfReads(z, 99, 23 * HOUR + 30 * MINUTE);
    var now := InstantOf(z, 99, 23 * HOUR + 30 * MINUTE);
    TomorrowsDate(z, now);
    FutureLocalTimeIsFuture(z, now, target);
  }
}
