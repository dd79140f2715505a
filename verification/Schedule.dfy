// When the next scheduled sweep comes, from harness/__main__.py.
module Schedule {
  import opened RunWindow

  const WEEK := 7 * DAY
  const MINUTE_41 := 41 * 60

  function HourOf(t: int): int {
    (t % DAY) / HOUR
  }

  // The cron `41 */3 * * 1-5`.
  predicate IsSlot(t: int) {
    t % HOUR == MINUTE_41 && HourOf(t) % 3 == 0 && Weekday(t) <= 4
  }

  // The slots: minute 41 of every third hour from midnight on, on the first five days of the week,
  // counted from a Monday.
  lemma SlotIs(t: int)
    ensures IsSlot(t) <==> exists d, k :: AtSlot(t, d, k)
  {
    if IsSlot(t) {
      var d, h := t / DAY, HourOf(t);
      assert t == DAY * d + t % DAY && t % DAY == HOUR * h + (t % DAY) % HOUR;
      ModOf(t, HOUR, 24 * d + h, (t % DAY) % HOUR);
      assert h == 3 * (h / 3);
      assert AtSlot(t, d, h / 3);
    }
    if d, k :| AtSlot(t, d, k) {
      ModOf(t, HOUR, 24 * d + 3 * k, MINUTE_41);
      ModOf(t, DAY, d, 10800 * k + 2460);
      assert t / DAY == d;
    }
  }

  ghost predicate AtSlot(t: int, d: int, k: int) {
    0 <= k < 8 && d % 7 < 5 && t == 86400 * d + 10800 * k + 2460
  }

  // The first slot of the week after `now`'s: Monday at 00:41.
  lemma NextMondayIsASlot(now: int)
    ensures var monday := now - now % WEEK + WEEK + MINUTE_41;
            IsSlot(monday) && now < monday && monday % HOUR == MINUTE_41
  {
    var k := now / WEEK + 1;
    var monday := now - now % WEEK + WEEK + MINUTE_41;
    assert monday == WEEK * k + MINUTE_41;
    ModOf(monday, HOUR, k * 168, MINUTE_41);
    ModOf(monday, DAY, k * 7, MINUTE_41);
    assert monday / DAY == k * 7;
    ModOf(k * 7, 7, k, 0);
  }

  // Minutes 41 are an hour apart.
  lemma HourApart(a: int, b: int)
    requires a % HOUR == MINUTE_41 && b % HOUR == MINUTE_41 && a < b
    ensures a + HOUR <= b
  {
    assert a == HOUR * (a / HOUR) + MINUTE_41 && b == HOUR * (b / HOUR) + MINUTE_41;
  }

  // No slot after `now` comes before `next`.
  ghost predicate NoneBefore(now: int, next: int) {
    forall t :: now < t && IsSlot(t) ==> next <= t
  }

  // The minute 41 of `now`'s own hour comes before any later slot.
  lemma StartsEarly(now: int)
    ensures var next := now - now % HOUR + MINUTE_41; next % HOUR == MINUTE_41 && NoneBefore(now, next)
  {
    hide HourOf, Weekday;
    var next := now - now % HOUR + MINUTE_41;
    ModOf(next, HOUR, now / HOUR, MINUTE_41);
    forall t | now < t && IsSlot(t) ensures next <= t {
      if t < next { HourApart(t, next); }
    }
  }

  // From a minute 41 that is no slot after `now` the search goes on an hour later.
  lemma OneHourOn(now: int, next: int)
    requires next % HOUR == MINUTE_41 && NoneBefore(now, next) && !(now < next && IsSlot(next))
    ensures (next + HOUR) % HOUR == MINUTE_41 && NoneBefore(now, next + HOUR)
  {
    hide HourOf, Weekday;
    ModOf(next + HOUR, HOUR, next / HOUR + 1, MINUTE_41);
    forall t | now < t && IsSlot(t) ensures next + HOUR <= t {
      assert next < t;
      HourApart(next, t);
    }
  }

  // `_next_scheduled`: the least slot after `now`.
  method NextScheduled(now: int) returns (next: int)
    ensures now < next && IsSlot(next)
    ensures forall t :: now < t && IsSlot(t) ==> next <= t
  {
    hide HourOf, Weekday, NoneBefore;
    ghost var monday := now - now % WEEK + WEEK + MINUTE_41;
    NextMondayIsASlot(now);
    next := now - now % HOUR + MINUTE_41;
    StartsEarly(now);
    while next <= now || HourOf(next) % 3 != 0 || Weekday(next) > 4
      invariant next % HOUR == MINUTE_41 && NoneBefore(now, next)
      decreases monday - next
    {
      OneHourOn(now, next);
      NotPast(now, next + HOUR, monday);
      next := next + HOUR;
    }
    FoundLeast(now, next);
  }

  lemma NotPast(now: int, next: int, slot: int)
    requires NoneBefore(now, next) && now < slot && IsSlot(slot)
    ensures next <= slot
  {}

  lemma FoundLeast(now: int, next: int)
    requires NoneBefore(now, next)
    ensures forall t :: now < t && IsSlot(t) ==> next <= t
  {}
}
