// The resume relay of harness/dispatcher.py: when to come back, sampled at four instants.
module Relay {
  import opened Prelude
  import opened RunWindow
  import opened Ledgers
  import opened Dispatcher

  const MINUTE := 60
  const WAKE_MIN_GAP := 20 * MINUTE
  const WAKE_AFTER_NOT_QUIET := 60 * MINUTE
  const NOT_QUIET_FRESH := 3 * HOUR
  const WAKE_HORIZON := 24 * HOUR

  // The wait before the first sample: longer after a fresh verdict that someone is spending.
  function Floor(w: Window, now: int): (f: int)
    ensures 0 < f < WAKE_HORIZON
  {
    if w.quiet.Some? && !w.quiet.value.quiet && w.quiet.value.at.Iso?
        && now - w.quiet.value.at.instant <= NOT_QUIET_FRESH
    then WAKE_AFTER_NOT_QUIET
    else WAKE_MIN_GAP
  }

  // The soonest the relay may come back: an hour on when the last check is three hours old or less
  // and saw someone spending, and 20 minutes on otherwise.
  ghost function Earliest(w: Window, now: int): (t: int)
    ensures now < t
  {
    match w.quiet
    case Some(Quiet(Iso(t), false, _)) => if now - t <= 10800 then now + 3600 else now + 1200
    case _ => now + 1200
  }

  lemma FloorIs(w: Window, now: int)
    ensures now + Floor(w, now) == Earliest(w, now)
  {}

  function LimitEnd(w: Window): Option<int> {
    if w.rateLimitedUntil.Some? && w.rateLimitedUntil.value.Iso? then Some(w.rateLimitedUntil.value.instant) else None
  }

  function SessionReset(w: Window): Option<int> {
    match w.UsageWindow(FiveHour)
    case Some(reading) => InstantOf(Get(reading, ResetsAt))
    case None => None
  }

  function JustAfter(t: Option<int>): set<int> {
    match t
    case Some(x) => {x + MINUTE}
    case None => {}
  }

  function NextOpening(config: Config, now: int): set<int> {
    match config.window
    case Some(span) => {Openings(span, now).1}
    case None => {}
  }

  // The instants `_wake_times` offers.
  function Samples(w: Window, config: Config, now: int, opening: bool): set<int> {
    Clipped(Offered(w, config, now, opening), now + Floor(w, now), now + WAKE_HORIZON)
  }

  // The times up to the latest, none before the earliest.
  function Clipped(times: set<int>, earliest: int, latest: int): set<int> {
    set t | t in times && t <= latest :: Max(t, earliest)
  }

  function Offered(w: Window, config: Config, now: int, opening: bool): set<int> {
    {now + Floor(w, now)} + JustAfter(LimitEnd(w)) + JustAfter(SessionReset(w))
    + (if opening then NextOpening(config, now) else {})
  }

  // The instant is offered: the earliest, a minute after the stored limit's end or after the reset of
  // the session as observed, or the window's next opening.
  ghost predicate IsOffered(w: Window, config: Config, now: int, opening: bool, x: int) {
    || x == Earliest(w, now)
    || w.rateLimitedUntil == Some(Iso(x - 60))
    || (exists fields, reading ::
          w.usage == Object(fields) && Get(fields, FiveHour) == Object(reading)
          && Get(reading, ResetsAt) == Str(Iso(x - 60)))
    || (opening && exists span :: config.window == Some(span) && x == Openings(span, now).1)
  }

  // What is sampled: each instant offered within a day, put off to the earliest when it comes before.
  lemma SamplesAre(w: Window, config: Config, now: int, opening: bool, t: int)
    ensures t in Samples(w, config, now, opening) <==>
              exists x :: IsOffered(w, config, now, opening, x) && x <= now + 86400 && t == Max(x, Earliest(w, now))
  {
    hide Floor;
    FloorIs(w, now);
    forall x ensures x in Offered(w, config, now, opening) <==> IsOffered(w, config, now, opening, x) {
      OfferedIs(w, config, now, opening, x);
    }
    hide Offered, IsOffered;
    if t in Samples(w, config, now, opening) {
      var x :| x in Offered(w, config, now, opening) && x <= now + WAKE_HORIZON && Max(x, now + Floor(w, now)) == t;
    }
    if x :| IsOffered(w, config, now, opening, x) && x <= now + 86400 && t == Max(x, Earliest(w, now)) {
      assert x in Offered(w, config, now, opening);
    }
  }

  lemma OfferedIs(w: Window, config: Config, now: int, opening: bool, x: int)
    ensures x in Offered(w, config, now, opening) <==> IsOffered(w, config, now, opening, x)
  {
    FloorIs(w, now);
    hide Floor, Earliest, Openings;
  }

  lemma SamplesInRange(w: Window, config: Config, now: int, opening: bool)
    ensures forall t :: t in Samples(w, config, now, opening) ==> now + Floor(w, now) <= t <= now + WAKE_HORIZON
  {}

  // `_wake_times`
  method WakeTimes(now: int, ledger: Ledger, config: Config, opening: bool) returns (times: seq<int>, latest: int)
    ensures Ascending(times) && Elements(times) == Samples(ledger.window, config, now, opening)
    ensures latest == now + WAKE_HORIZON
  {
    hide Openings, LimitEnd, SessionReset, SortedSet, Clipped;
    var floor := WAKE_MIN_GAP;
    var quiet := ledger.window.quiet;
    if quiet.Some? && !quiet.value.quiet && quiet.value.at.Iso? && now - quiet.value.at.instant <= NOT_QUIET_FRESH {
      floor := WAKE_AFTER_NOT_QUIET;
    }
    var earliest := now + floor;
    latest := now + WAKE_HORIZON;
    var offered := {earliest};
    var limited := LimitEnd(ledger.window);
    if limited.Some? {
      offered := offered + {limited.value + MINUTE};
    }
    var reset := SessionReset(ledger.window);
    if reset.Some? {
      offered := offered + {reset.value + MINUTE};
    }
    if opening && config.window.Some? {
      offered := offered + {Openings(config.window.value, now).1};
    }
    assert offered == Offered(ledger.window, config, now, opening);
    times := SortedSet(Clipped(offered, earliest, latest));
  }

  // Something would start at `t`.
  predicate Starts(w: Window, inputs: Inputs, t: int) {
    StartsAt(w, inputs, t) != []
  }

  // An instant the relay may come back at: from the earliest on, within a day.
  ghost predicate InReach(w: Window, now: int, u: int) {
    Earliest(w, now) <= u <= now + 86400
  }

  // The window's owed record, if any, has begun by the time the relay could first come back.
  // Every record `_owe_window` writes has: see OwedWork.OwedSinceIsPast.
  ghost predicate OwedBegan(w: Window, t: int) {
    w.owed.Some? ==> w.owed.value.since <= t
  }

  lemma SamplesInReach(w: Window, config: Config, now: int, opening: bool)
    ensures Earliest(w, now) in Samples(w, config, now, opening)
    ensures forall t :: t in Samples(w, config, now, opening) ==> InReach(w, now, t)
  {
    FloorIs(w, now);
    SamplesInRange(w, config, now, opening);
    var earliest := Earliest(w, now);
    assert earliest in Offered(w, config, now, opening) && Max(earliest, earliest) == earliest;
  }

  // `wake_at`: the first sample at which something starts. It comes no later than a startable
  // instant exactly when the limits are clear at some sample by then: at the floor, say, or a
  // minute before the instant. With the limits clear at the floor it is the soonest startable
  // instant of all, and None says there is none.
  method WakeAt(now: int, ledger: Ledger, inputs: Inputs) returns (at: Option<int>)
    requires inputs.config.window.Some? ==> Proper(inputs.config.window.value)
    ensures at.Some? ==>
              && at.value in Samples(ledger.window, inputs.config, now, true)
              && Starts(ledger.window, inputs, at.value)
              && forall t :: t in Samples(ledger.window, inputs.config, now, true) && t < at.value ==>
                   !Starts(ledger.window, inputs, t)
    ensures at.None? ==>
              forall t :: t in Samples(ledger.window, inputs.config, now, true) ==> !Starts(ledger.window, inputs, t)
    ensures at.Some? ==> Earliest(ledger.window, now) <= at.value <= now + 86400
    ensures Starts(ledger.window, inputs, Earliest(ledger.window, now)) ==> at == Some(Earliest(ledger.window, now))
    ensures OwedBegan(ledger.window, Earliest(ledger.window, now)) ==>
              forall u :: InReach(ledger.window, now, u) && Starts(ledger.window, inputs, u) ==>
                ((at.Some? && at.value <= u) <==> ClearBy(ledger.window, inputs.config, now, u, true))
    ensures OwedBegan(ledger.window, Earliest(ledger.window, now)) ==>
              forall u :: InReach(ledger.window, now, u) && Starts(ledger.window, inputs, u)
                          && ClearMinute(ledger.window, inputs.config, now, u) ==>
                at.Some? && at.value <= u
    ensures OwedBegan(ledger.window, Earliest(ledger.window, now))
            && Unstopped(ledger.window, inputs.config, Earliest(ledger.window, now)) ==>
              && (at.None? <==> forall u :: InReach(ledger.window, now, u) ==> !Starts(ledger.window, inputs, u))
              && (at.Some? ==> forall u :: InReach(ledger.window, now, u) && Starts(ledger.window, inputs, u) ==>
                  at.value <= u)
  {
    hide Samples, StartsAt, PlanAt, OwedBegan, Unstopped, Floor, ClearBy, Earliest;
    var w := ledger.window;
    var times, latest := WakeTimes(now, ledger, inputs.config, true);
    ghost var samples := Samples(w, inputs.config, now, true);
    SamplesInReach(w, inputs.config, now, true);
    assert forall t :: t in samples <==> t in times by {
      assert forall t :: t in times <==> t in Elements(times);
    }
    at := None;
    var i := 0;
    while i < |times| && at.None?
      invariant 0 <= i <= |times|
      invariant at.None? ==> forall k :: 0 <= k < i ==> !Starts(w, inputs, times[k])
      invariant at.Some? ==> at.value in samples && Starts(w, inputs, at.value)
      invariant at.Some? ==> forall t :: t in samples && t < at.value ==> !Starts(w, inputs, t)
    {
      var planned := MakePlan(times[i], ledger, inputs);
      PlanStarts(w, inputs, times[i]);
      if planned.start != [] {
        at := Some(times[i]);
        forall t | t in samples && t < at.value ensures !Starts(w, inputs, t) {
          var k :| 0 <= k < |times| && times[k] == t;
          assert k < i;
        }
      }
      i := i + 1;
    }
    if OwedBegan(w, Earliest(w, now)) {
      forall u | InReach(w, now, u) && Starts(w, inputs, u)
        ensures (at.Some? && at.value <= u) <==> ClearBy(w, inputs.config, now, u, true)
        ensures ClearMinute(w, inputs.config, now, u) ==> ClearBy(w, inputs.config, now, u, true)
      {
        FoundExactly(w, inputs, now, u);
        if ClearMinute(w, inputs.config, now, u) { ClearMinuteIsSampled(w, inputs.config, now, u, true); }
      }
    }
  }

  // ---- stops clear for good, and clearing is sampled ----

  // Neither the stored limit nor the usage stop refuses a call at `t`: `Governor.refusal` is None.
  predicate Unstopped(w: Window, config: Config, t: int) {
    !w.RateLimited(t) && UsageStop(w, config, t).None?
  }

  lemma StopsClearForGood(w: Window, config: Config, s: int, t: int)
    requires Unstopped(w, config, s) && s <= t
    ensures Unstopped(w, config, t)
  {}

  // No limit refuses at some sample by `u`.
  ghost predicate ClearBy(w: Window, config: Config, now: int, u: int, opening: bool) {
    exists s :: s in Samples(w, config, now, opening) && s <= u && Unstopped(w, config, s)
  }

  // No limit refuses at the floor already, or a minute before `u`.
  ghost predicate ClearMinute(w: Window, config: Config, now: int, u: int) {
    Unstopped(w, config, Earliest(w, now)) || Unstopped(w, config, u - 60)
  }

  // Either is enough: a sample comes at most a minute after the limits clear.
  lemma ClearMinuteIsSampled(w: Window, config: Config, now: int, u: int, opening: bool)
    requires InReach(w, now, u) && ClearMinute(w, config, now, u)
    ensures ClearBy(w, config, now, u, opening)
  {
    var earliest := Earliest(w, now);
    var s := earliest;
    if w.RateLimited(s) {
      s := LimitEnd(w).value + MINUTE;
    }
    if UsageStop(w, config, s).Some? {
      s := SessionReset(w).value + MINUTE;
    }
    assert s in Offered(w, config, now, opening) && s == Max(s, earliest);
    assert s in Samples(w, config, now, opening) && s <= u && Unstopped(w, config, s);
  }

  // ---- readiness grows with the window and with what is owed ----

  lemma ReadyIff(w: Window, inputs: Inputs, m: Moment)
    ensures Chosen(w, inputs, m) != [] <==>
              || CarryStarts(w, inputs, m)
              || (MaxSlots(inputs.config) > 0 && exists c :: c in inputs.candidates && Eligible(w, inputs, m, c))
  {
    var ordered := Ordered(inputs.candidates);
    var es := EligibleOf(w, inputs, m, ordered);
    OrderedMembers(inputs.candidates);
    EligibleOfMembers(w, inputs, m, ordered);
    assert |Issues(es)| == |es|;
    if es != [] {
      assert es[0] in es;
    }
  }

  lemma ReadyGrows(w: Window, inputs: Inputs, m: Moment, n: Moment)
    requires m.open ==> n.open
    requires m.open || m.owed <= n.owed
    requires Chosen(w, inputs, m) != []
    ensures Chosen(w, inputs, n) != []
  {
    ReadyIff(w, inputs, m);
    ReadyIff(w, inputs, n);
    if !CarryStarts(w, inputs, m) {
      var c :| c in inputs.candidates && Eligible(w, inputs, m, c);
      assert WhyNot(inputs, n, c).None? by {
        assert !m.open ==> ExemptIssues(inputs.candidates, m) <= ExemptIssues(inputs.candidates, n);
      }
      assert IsCarry(w, inputs, n, c) ==> CarryStarts(w, inputs, n);
    }
  }

  // ---- four samples suffice ----

  // When something starts at `u`, a sample by `u` starts something exactly when the limits are
  // clear at one: from there on only the window and what it owes matter, and an opening between
  // the two is a sample itself.
  lemma FoundExactly(w: Window, inputs: Inputs, now: int, u: int)
    requires inputs.config.window.Some? ==> Proper(inputs.config.window.value)
    requires InReach(w, now, u) && Starts(w, inputs, u)
    requires OwedBegan(w, Earliest(w, now))
    ensures (exists x :: x in Samples(w, inputs.config, now, true) && x <= u && Starts(w, inputs, x))
            <==> ClearBy(w, inputs.config, now, u, true)
  {
    if exists x :: x in Samples(w, inputs.config, now, true) && x <= u && Starts(w, inputs, x) {
      var x :| x in Samples(w, inputs.config, now, true) && x <= u && Starts(w, inputs, x);
      StartsUnstopped(w, inputs, x);
    }
    if ClearBy(w, inputs.config, now, u, true) {
      var s :| s in Samples(w, inputs.config, now, true) && s <= u && Unstopped(w, inputs.config, s);
      var x := StartsFrom(w, inputs, now, s, u);
    }
  }

  lemma StartsUnstopped(w: Window, inputs: Inputs, x: int)
    requires Starts(w, inputs, x)
    ensures Unstopped(w, inputs.config, x)
  {}

  lemma StartsFrom(w: Window, inputs: Inputs, now: int, s: int, u: int) returns (x: int)
    requires inputs.config.window.Some? ==> Proper(inputs.config.window.value)
    requires InReach(w, now, u) && Starts(w, inputs, u) && OwedBegan(w, Earliest(w, now))
    requires s in Samples(w, inputs.config, now, true) && s <= u && Unstopped(w, inputs.config, s)
    ensures x in Samples(w, inputs.config, now, true) && x <= u && Starts(w, inputs, x)
  {
    var config := inputs.config;
    var mu, ms := MomentOf(w, config, u), MomentOf(w, config, s);
    SamplesInReach(w, config, now, true);
    if InRunWindow(config.window, u) && config.window.Some? && !InRunWindow(config.window, s) {
      var span := config.window.value;
      OpenLookingBack(span, s, u);
      WindowFunctionsAgree(span, u);
      x := Openings(span, u).0;
      NextOpeningIsTheFirst(span, now, x);
      assert x in NextOpening(config, now) && x == Max(x, Earliest(w, now));
      StopsClearForGood(w, config, s, x);
      ReadyGrows(w, inputs, mu, MomentOf(w, config, x));
    } else {
      x := s;
      assert mu.open ==> ms.open;
      assert mu.owed <= ms.owed;
      ReadyGrows(w, inputs, mu, ms);
    }
  }

  // So a gap a minute long is always met before it ends: what starts at both its ends does.
  lemma WholeMinuteIsFound(w: Window, inputs: Inputs, now: int, u: int)
    requires inputs.config.window.Some? ==> Proper(inputs.config.window.value)
    requires InReach(w, now, u) && InReach(w, now, u + 60) && OwedBegan(w, Earliest(w, now))
    requires Starts(w, inputs, u) && Starts(w, inputs, u + 60)
    ensures exists x :: x in Samples(w, inputs.config, now, true) && x <= u + 60 && Starts(w, inputs, x)
  {
    StartsUnstopped(w, inputs, u);
    ClearMinuteIsSampled(w, inputs.config, now, u + 60, true);
    FoundExactly(w, inputs, now, u + 60);
  }

  // One directed candidate with no dependency starts exactly in an open window or when owed.
  lemma OneCandidateReady(w: Window, inputs: Inputs, only: Candidate, m: Moment)
    requires inputs.candidates == [only] && only == Candidate(1, [], "", false, Directed)
    requires w.carry.None? && inputs.capped == map[] && inputs.config.githubStore && inputs.config.maxConcurrent == 1
    ensures Chosen(w, inputs, m) != [] <==> m.open || 1 in m.owed
  {
    ReadyIff(w, inputs, m);
    assert only in inputs.candidates;
    assert ExemptIssues([only], m) == if 1 in m.owed then {1} else {};
  }

  // What is missed lies within a minute of a limit's end: here half of that minute, which a block
  // closes again, for the sample is a whole minute past the end.
  lemma HalfMinuteIsMissed() returns (w: Window, inputs: Inputs, u: int)
    ensures u == 7200 && inputs.config.window.Some? && Proper(inputs.config.window.value) && w.owed.None?
    ensures forall t :: u <= t <= u + 29 ==> Starts(w, inputs, t) && !ClearBy(w, inputs.config, 0, t, true)
    ensures forall t :: t in Samples(w, inputs.config, 0, true) ==> !Starts(w, inputs, t)
  {
    u := 7200;
    w := EmptyWindow(Iso(0)).(
      rateLimitedUntil := Some(Iso(u)),
      block := Some(Block(Plain("operator"), 0, 1, u + 30, Plain(""), Plain(""))));
    var only := Candidate(1, [], "", false, Directed);
    inputs := Inputs(Config(Some(Span(0, 0, true)), 95.0, 1, true), [only], {}, false, None, map[]);
    assert only in inputs.candidates;
    forall t ensures Starts(w, inputs, t) <==> u <= t < u + 30 {
      EqualEndsNeverOpen(inputs.config.window.value, t);
      OneCandidateReady(w, inputs, only, MomentOf(w, inputs.config, t));
    }
    assert Openings(inputs.config.window.value, 0).1 == DAY;
  }

  // Nor can the owed record's beginning be left out: one that begins after every sample is
  // missed for hours.
  lemma UnbegunRecordIsMissed() returns (w: Window, inputs: Inputs, u: int)
    ensures inputs.config.window.Some? && Proper(inputs.config.window.value)
    ensures InReach(w, 0, u) && Starts(w, inputs, u) && Unstopped(w, inputs.config, Earliest(w, 0))
              && !OwedBegan(w, Earliest(w, 0))
    ensures forall t :: t in Samples(w, inputs.config, 0, true) ==> !Starts(w, inputs, t)
  {
    u := 4 * HOUR;
    w := EmptyWindow(Iso(0)).(owed := Some(Owed([1], 3 * HOUR, 30 * HOUR)));
    var only := Candidate(1, [], "", false, Directed);
    // A weekly window that opens on Sunday, so the next opening is past the horizon.
    inputs := Inputs(Config(Some(Span(6 * DAY_MINUTES, 6 * DAY_MINUTES, false)), 95.0, 1, true), [only], {}, false,
        None, map[]);
    assert only in inputs.candidates;
    var span := inputs.config.window.value;
    assert Elements([1]) == {1};
    forall t ensures Starts(w, inputs, t) <==> 3 * HOUR <= t < 30 * HOUR {
      EqualEndsNeverOpen(span, t);
      OneCandidateReady(w, inputs, only, MomentOf(w, inputs.config, t));
    }
    assert IsOpening(span, -DAY);
    LatestOpening(span, -DAY, 0);
    assert Openings(span, 0).1 == 6 * DAY;
    assert forall t :: t in Samples(w, inputs.config, 0, true) ==> t == WAKE_MIN_GAP;
  }

  // ---- the planning relay ----

  function PlanningUntil(w: Window): Option<int> {
    match w.planning
    case Some(record) => Some(record.until)
    case None => None
  }

  // A planning run would be admitted at `t`, before the record's end: no limit stands, the session
  // is under its share, and nobody halted the harness.
  ghost predicate PlanningFree(w: Window, config: Config, t: int) {
    && (forall end :: w.rateLimitedUntil == Some(Iso(end)) ==> end <= t)
    && (forall s :: w.SessionUtilization(Some(t)) == Some(s) ==> s * 100.0 < config.sessionStopPct)
    && w.halt == None && exists record :: w.planning == Some(record) && t < record.until
  }

  // `planning_wake_at`: nothing is owed, halted or ended, or the first sample before the
  // record's end that no limit refuses. It comes no later than a free instant exactly when the
  // limits are clear at some sample by then, and with them clear at the floor it is the soonest.
  method PlanningWakeAt(now: int, ledger: Ledger, config: Config, owed: set<int>, halted: bool)
    returns (at: Option<int>)
    ensures at.Some? ==>
              && owed != {} && !halted && now < at.value
              && at.value in Samples(ledger.window, config, now, false)
              && PlanningFree(ledger.window, config, at.value)
              && forall t :: t in Samples(ledger.window, config, now, false) && t < at.value ==>
                   !PlanningFree(ledger.window, config, t)
    ensures at.Some? ==> Earliest(ledger.window, now) <= at.value <= now + 86400
    ensures owed != {} && !halted && PlanningFree(ledger.window, config, Earliest(ledger.window, now)) ==>
              at == Some(Earliest(ledger.window, now))
    ensures owed != {} && !halted ==>
              forall u :: InReach(ledger.window, now, u) && PlanningFree(ledger.window, config, u) ==>
                ((at.Some? && at.value <= u) <==> ClearBy(ledger.window, config, now, u, false))
    ensures owed != {} && !halted ==>
              forall u :: InReach(ledger.window, now, u) && PlanningFree(ledger.window, config, u)
                          && ClearMinute(ledger.window, config, now, u) ==>
                at.Some? && at.value <= u
    ensures owed != {} && !halted && Unstopped(ledger.window, config, Earliest(ledger.window, now)) ==>
              && (at.None? <==> forall u :: InReach(ledger.window, now, u) ==> !PlanningFree(ledger.window, config, u))
              && (at.Some? ==>
                    forall u :: InReach(ledger.window, now, u) && PlanningFree(ledger.window, config, u) ==>
                      at.value <= u)
  {
    hide Samples, Floor, ClearBy, Earliest;
    var w := ledger.window;
    at := None;
    if owed == {} {
      return;
    }
    if halted || w.halt.Some? {
      return;
    }
    var until := PlanningUntil(w);
    SamplesInReach(w, config, now, false);
    if until.None? || now >= until.value {
      return;
    }
    var times, latest := WakeTimes(now, ledger, config, false);
    ghost var samples := Samples(w, config, now, false);
    assert forall t :: t in samples <==> t in times by {
      assert forall t :: t in times <==> t in Elements(times);
    }
    var i := 0;
    while i < |times|
      invariant 0 <= i <= |times|
      invariant forall k :: 0 <= k < i ==> !PlanningFree(w, config, times[k])
    {
      if times[i] >= until.value {
        break;
      }
      if !w.RateLimited(times[i]) && UsageStop(w, config, times[i]).None? {
        at := Some(times[i]);
        break;
      }
      i := i + 1;
    }
    forall t | t in samples && (at.None? || t < at.value) ensures !PlanningFree(w, config, t) {
      var k :| 0 <= k < |times| && times[k] == t;
    }
    assert at.Some? ==> at.value in samples && PlanningFree(w, config, at.value);
    forall u | InReach(w, now, u) && PlanningFree(w, config, u)
      ensures (at.Some? && at.value <= u) <==> ClearBy(w, config, now, u, false)
      ensures ClearMinute(w, config, now, u) ==> ClearBy(w, config, now, u, false)
    {
      FreeExactly(w, config, now, u);
      if ClearMinute(w, config, now, u) { ClearMinuteIsSampled(w, config, now, u, false); }
    }
  }

  lemma FreeExactly(w: Window, config: Config, now: int, u: int)
    requires PlanningFree(w, config, u)
    ensures (exists s :: s in Samples(w, config, now, false) && s <= u && PlanningFree(w, config, s))
            <==> ClearBy(w, config, now, u, false)
  {
    if ClearBy(w, config, now, u, false) {
      var s :| s in Samples(w, config, now, false) && s <= u && Unstopped(w, config, s);
      assert PlanningFree(w, config, s);
    }
  }
}
