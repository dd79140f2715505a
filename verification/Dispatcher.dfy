// The dispatcher of harness/dispatcher.py, its order from harness/priority.py, and the
// governor's admission rule from harness/governor.py.
module Dispatcher {
  import opened Prelude
  import opened RunWindow
  import opened Ledgers

  // The five priority classes, highest first, and any other word.
  datatype Class = Answer | Unblock | Directed | Audit | Suggested | Unranked(name: string)

  // `priority.rank`
  function Rank(cls: Class): nat {
    match cls
    case Answer => 0
    case Unblock => 1
    case Directed => 2
    case Audit => 3
    case Suggested => 4
    case Unranked(_) => 5
  }

  datatype Candidate = Candidate(issue: int, dependsOn: seq<int>, createdAt: string, forced: bool, cls: Class)

  datatype Config = Config(
    window: Option<Span>,
    sessionStopPct: real,
    maxConcurrent: int,
    githubStore: bool)

  // Everything the plan reads except the ledger and the time.
  datatype Inputs = Inputs(
    config: Config,
    candidates: seq<Candidate>,
    merged: set<int>,
    halted: bool,
    suggestedRefused: Option<string>,
    capped: map<int, string>)

  datatype Reason =
    | RateLimitedUntil(until: Text)
    | Halted
    | HaltedBy(halt: Halt)
    | UsageStopped(session: real, limit: real)
    | OutsideWindow
    | Slots(started: nat, slots: int, lastSession: Option<real>)

  datatype Skip =
    | OutsideRunWindow
    | Refused(why: string)
    | CappedDelivery(why: string)
    | NotMerged(dep: int)
    | SlotsFull

  datatype Plan = Plan(start: seq<int>, reason: Reason, skipped: map<int, Skip>)

  // `usage_stop`: the session utilization that stops work, or None.
  function UsageStop(w: Window, config: Config, now: int): Option<real> {
    match w.SessionUtilization(Some(now))
    case Some(session) => if session * 100.0 >= config.sessionStopPct then Some(session) else None
    case None => None
  }

  // `Governor.refusal`: the usage stop first, then the stored rate limit.
  function Refusal(w: Window, config: Config, now: int): Option<Reason> {
    match UsageStop(w, config, now)
    case Some(session) => Some(UsageStopped(session, config.sessionStopPct))
    case None => if w.RateLimited(now) then Some(RateLimitedUntil(w.rateLimitedUntil.value)) else None
  }

  // ---- the order ----

  // The rank of its class comes before anything, then whether it was forced, its age and its number.
  datatype Place = Place(rank: nat, late: nat, createdAt: string, issue: int)

  function PlaceOf(c: Candidate): Place {
    Place(Rank(c.cls), if c.forced then 0 else 1, c.createdAt, c.issue)
  }

  predicate TextBefore(a: string, b: string) {
    b != [] && (a == [] || a[0] < b[0] || (a[0] == b[0] && TextBefore(a[1..], b[1..])))
  }

  predicate AtOrBefore(a: Place, b: Place) {
    || a.rank < b.rank
    || (a.rank == b.rank &&
        (a.late < b.late ||
         (a.late == b.late &&
          (TextBefore(a.createdAt, b.createdAt) || (a.createdAt == b.createdAt && a.issue <= b.issue)))))
  }

  lemma {:induction false} TextBeforeTotal(a: string, b: string)
    ensures TextBefore(a, b) || a == b || TextBefore(b, a)
    ensures !(TextBefore(a, b) && (a == b || TextBefore(b, a)))
  {
    if a != [] && b != [] {
      TextBeforeTotal(a[1..], b[1..]);
      assert a == [a[0]] + a[1..] && b == [b[0]] + b[1..];
    }
  }

  lemma {:induction false} TextBeforeTransitive(a: string, b: string, c: string)
    requires TextBefore(a, b) && TextBefore(b, c)
    ensures TextBefore(a, c)
  {
    if a != [] && a[0] == b[0] == c[0] {
      TextBeforeTransitive(a[1..], b[1..], c[1..]);
    }
  }

  lemma OrderIsTotal(a: Place, b: Place)
    ensures AtOrBefore(a, b) || AtOrBefore(b, a)
    ensures AtOrBefore(a, b) && AtOrBefore(b, a) ==> a == b
  {
    TextBeforeTotal(a.createdAt, b.createdAt);
  }

  lemma OrderIsTransitive(a: Place, b: Place, c: Place)
    requires AtOrBefore(a, b) && AtOrBefore(b, c)
    ensures AtOrBefore(a, c)
  {
    if TextBefore(a.createdAt, b.createdAt) && TextBefore(b.createdAt, c.createdAt) {
      TextBeforeTransitive(a.createdAt, b.createdAt, c.createdAt);
    }
  }

  // `sorted(candidates, key=...)`, a stable sort.
  function Insert(c: Candidate, ordered: seq<Candidate>): seq<Candidate> {
    if ordered == [] || AtOrBefore(PlaceOf(c), PlaceOf(ordered[0])) then [c] + ordered
    else [ordered[0]] + Insert(c, ordered[1..])
  }

  function Ordered(candidates: seq<Candidate>): seq<Candidate> {
    if candidates == [] then [] else Insert(candidates[0], Ordered(candidates[1..]))
  }

  ghost predicate InOrder(cs: seq<Candidate>) {
    forall i, j :: 0 <= i < j < |cs| ==> AtOrBefore(PlaceOf(cs[i]), PlaceOf(cs[j]))
  }

  lemma FirstInOrder(c: Candidate, cs: seq<Candidate>)
    requires InOrder(cs) && (cs != [] ==> AtOrBefore(PlaceOf(c), PlaceOf(cs[0])))
    ensures InOrder([c] + cs)
  {
    hide AtOrBefore;
    forall j | 0 <= j < |cs| ensures AtOrBefore(PlaceOf(c), PlaceOf(cs[j])) {
      if j > 0 { OrderIsTransitive(PlaceOf(c), PlaceOf(cs[0]), PlaceOf(cs[j])); }
    }
  }

  lemma {:induction false} InsertKeepsOrder(c: Candidate, ordered: seq<Candidate>)
    requires InOrder(ordered)
    ensures InOrder(Insert(c, ordered))
    ensures multiset(Insert(c, ordered)) == multiset([c]) + multiset(ordered)
  {
    hide AtOrBefore, InOrder;
    if ordered == [] || AtOrBefore(PlaceOf(c), PlaceOf(ordered[0])) {
      FirstInOrder(c, ordered);
    } else {
      var first, rest := ordered[0], ordered[1..];
      assert ordered == [first] + rest;
      OrderIsTotal(PlaceOf(c), PlaceOf(first));
      TailInOrder(ordered);
      InsertKeepsOrder(c, rest);
      if rest != [] { FirstOfInsert(c, rest); }
      FirstInOrder(first, Insert(c, rest));
    }
  }

  lemma TailInOrder(cs: seq<Candidate>)
    requires InOrder(cs) && cs != []
    ensures InOrder(cs[1..]) && (|cs| > 1 ==> AtOrBefore(PlaceOf(cs[0]), PlaceOf(cs[1])))
  {
    hide AtOrBefore;
    assert forall j :: 0 <= j < |cs| - 1 ==> cs[1..][j] == cs[j + 1];
  }

  lemma FirstOfInsert(c: Candidate, cs: seq<Candidate>)
    requires cs != []
    ensures Insert(c, cs) != [] && (Insert(c, cs)[0] == c || Insert(c, cs)[0] == cs[0])
  {}

  lemma {:induction false} OrderedSorts(candidates: seq<Candidate>)
    ensures InOrder(Ordered(candidates))
    ensures multiset(Ordered(candidates)) == multiset(candidates)
  {
    if candidates != [] {
      OrderedSorts(candidates[1..]);
      InsertKeepsOrder(candidates[0], Ordered(candidates[1..]));
      assert candidates == [candidates[0]] + candidates[1..];
    }
  }

  lemma OrderedMembers(candidates: seq<Candidate>)
    ensures forall c :: c in Ordered(candidates) <==> c in candidates
  {
    OrderedSorts(candidates);
    forall c ensures c in Ordered(candidates) <==> c in candidates {
      assert c in Ordered(candidates) <==> c in multiset(Ordered(candidates));
      assert c in candidates <==> c in multiset(candidates);
    }
  }

  // ---- what the plan means ----

  // The two facts about an instant the selection reads once nothing stops it.
  datatype Moment = Moment(open: bool, owed: set<int>)

  function MomentOf(w: Window, config: Config, now: int): Moment {
    Moment(InRunWindow(config.window, now) || w.BlockOpen(now), w.OwedItems(now))
  }

  function MaxSlots(config: Config): int {
    if config.githubStore then config.maxConcurrent else 1
  }

  // The carried item resumes first: in an open window, outside a weekly one, or when owed.
  predicate CarryOk(w: Window, config: Config, m: Moment) {
    w.carry.Some? && (m.open || !IsDailyWindow(config.window) || w.carry.value.issue in m.owed)
  }

  predicate CarryStarts(w: Window, inputs: Inputs, m: Moment) {
    CarryOk(w, inputs.config, m) && w.carry.value.issue !in inputs.capped
  }

  function ExemptIssues(candidates: seq<Candidate>, m: Moment): set<int> {
    set c | c in candidates && (c.forced || c.issue in m.owed) :: c.issue
  }

  function Unmet(dependsOn: seq<int>, merged: set<int>): Option<int> {
    if dependsOn == [] then None
    else if dependsOn[0] !in merged then Some(dependsOn[0])
    else Unmet(dependsOn[1..], merged)
  }

  // Why a candidate other than the carry may not start, slots aside, in the plan's order.
  function WhyNot(inputs: Inputs, m: Moment, c: Candidate): Option<Skip> {
    if !m.open && c.issue !in ExemptIssues(inputs.candidates, m) then Some(OutsideRunWindow)
    else if inputs.suggestedRefused.Some? && inputs.suggestedRefused.value != "" && c.cls == Suggested
    then Some(Refused(inputs.suggestedRefused.value))
    else if c.issue in inputs.capped then Some(CappedDelivery(inputs.capped[c.issue]))
    else match Unmet(c.dependsOn, inputs.merged)
      case Some(dep) => Some(NotMerged(dep))
      case None => None
  }

  predicate IsCarry(w: Window, inputs: Inputs, m: Moment, c: Candidate) {
    CarryOk(w, inputs.config, m) && c.issue == w.carry.value.issue
  }

  predicate Eligible(w: Window, inputs: Inputs, m: Moment, c: Candidate) {
    !IsCarry(w, inputs, m, c) && WhyNot(inputs, m, c).None?
  }

  function EligibleOf(w: Window, inputs: Inputs, m: Moment, cs: seq<Candidate>): seq<Candidate> {
    if cs == [] then []
    else (if Eligible(w, inputs, m, cs[0]) then [cs[0]] else []) + EligibleOf(w, inputs, m, cs[1..])
  }

  function FirstOf<T>(s: seq<T>, n: int): seq<T> {
    if n <= 0 then [] else if n < |s| then s[..n] else s
  }

  function Issues(cs: seq<Candidate>): seq<int> {
    seq(|cs|, i requires 0 <= i < |cs| => cs[i].issue)
  }

  // The uncapped carry, then the first eligible candidates in order, up to the slots.
  function Chosen(w: Window, inputs: Inputs, m: Moment): seq<int> {
    var head := Head(w, inputs, m);
    head + FirstOf(Issues(EligibleOf(w, inputs, m, Ordered(inputs.candidates))), MaxSlots(inputs.config) - |head|)
  }

  // What stops every start at `now`, in the order the plan asks.
  function Stop(w: Window, inputs: Inputs, now: int): Option<Reason> {
    if w.RateLimited(now) then Some(RateLimitedUntil(w.rateLimitedUntil.value))
    else if inputs.halted then Some(Halted)
    else if w.halt.Some? then Some(HaltedBy(w.halt.value))
    else match UsageStop(w, inputs.config, now)
      case Some(session) => Some(UsageStopped(session, inputs.config.sessionStopPct))
      case None => None
  }

  // The issues the plan starts at `now`.
  function StartsAt(w: Window, inputs: Inputs, now: int): seq<int> {
    if Stop(w, inputs, now).Some? then [] else Chosen(w, inputs, MomentOf(w, inputs.config, now))
  }

  // Why the candidate is skipped: its own reason, or that the slots are full.
  function SkipOf(inputs: Inputs, m: Moment, c: Candidate): Skip {
    match WhyNot(inputs, m, c)
    case Some(skip) => skip
    case None => SlotsFull
  }

  // The skipped candidates among `cs`, with `room` slots left for them.
  function Skips(w: Window, inputs: Inputs, m: Moment, cs: seq<Candidate>, room: int): map<int, Skip> {
    if cs == [] then map[]
    else if IsCarry(w, inputs, m, cs[0]) then Skips(w, inputs, m, cs[1..], room)
    else if WhyNot(inputs, m, cs[0]).None? && room > 0 then Skips(w, inputs, m, cs[1..], room - 1)
    else map[cs[0].issue := SkipOf(inputs, m, cs[0])] + Skips(w, inputs, m, cs[1..], room)
  }

  function Head(w: Window, inputs: Inputs, m: Moment): seq<int> {
    if CarryStarts(w, inputs, m) then [w.carry.value.issue] else []
  }

  function HeadSkips(w: Window, inputs: Inputs, m: Moment): map<int, Skip> {
    if CarryOk(w, inputs.config, m) && w.carry.value.issue in inputs.capped
    then map[w.carry.value.issue := CappedDelivery(inputs.capped[w.carry.value.issue])]
    else map[]
  }

  predicate NothingMayStart(w: Window, inputs: Inputs, m: Moment) {
    !m.open && !CarryOk(w, inputs.config, m) && ExemptIssues(inputs.candidates, m) == {}
  }

  // The whole plan at `now`.
  function PlanAt(w: Window, inputs: Inputs, now: int): Plan {
    var stop := Stop(w, inputs, now);
    var m := MomentOf(w, inputs.config, now);
    if stop.Some? then Plan([], stop.value, map[])
    else if NothingMayStart(w, inputs, m) then Plan([], OutsideWindow, map[])
    else
      var chosen := Chosen(w, inputs, m);
      Plan(chosen, Slots(|chosen|, MaxSlots(inputs.config), w.SessionUtilization(None)),
           HeadSkips(w, inputs, m)
           + Skips(w, inputs, m, Ordered(inputs.candidates), MaxSlots(inputs.config) - |Head(w, inputs, m)|))
  }

  // What is chosen and skipped so far, completed by the candidates left, is the goal.
  ghost predicate Progress(w: Window, inputs: Inputs, m: Moment, left: seq<Candidate>, start: seq<int>,
                           skipped: map<int, Skip>, goal: Plan) {
    var room := MaxSlots(inputs.config) - |start|;
    && start + FirstOf(Issues(EligibleOf(w, inputs, m, left)), room) == goal.start
    && skipped + Skips(w, inputs, m, left, room) == goal.skipped
  }

  lemma ProgressBegins(w: Window, inputs: Inputs, m: Moment, ordered: seq<Candidate>, head: seq<int>,
                       skips: map<int, Skip>)
    ensures var room := MaxSlots(inputs.config) - |head|;
            Progress(w, inputs, m, ordered, head, skips,
                     Plan(head + FirstOf(Issues(EligibleOf(w, inputs, m, ordered)), room), OutsideWindow,
                          skips + Skips(w, inputs, m, ordered, room)))
  {}

  lemma ProgressEnds(w: Window, inputs: Inputs, m: Moment, start: seq<int>, skipped: map<int, Skip>, goal: Plan)
    requires Progress(w, inputs, m, [], start, skipped, goal)
    ensures start == goal.start && skipped == goal.skipped
  {}

  lemma StartOne(start: seq<int>, issue: int, rest: seq<int>, room: int)
    requires room > 0
    ensures start + FirstOf([issue] + rest, room) == (start + [issue]) + FirstOf(rest, room - 1)
  {}

  lemma SkipOne(skipped: map<int, Skip>, issue: int, why: Skip, rest: map<int, Skip>)
    ensures skipped + (map[issue := why] + rest) == skipped[issue := why] + rest
  {}

  lemma OneCandidate(w: Window, inputs: Inputs, m: Moment, c: Candidate, left: seq<Candidate>, start: seq<int>,
                     skipped: map<int, Skip>, goal: Plan)
    requires Progress(w, inputs, m, [c] + left, start, skipped, goal)
    ensures if IsCarry(w, inputs, m, c) then Progress(w, inputs, m, left, start, skipped, goal)
            else if WhyNot(inputs, m, c).None? && |start| < MaxSlots(inputs.config)
            then Progress(w, inputs, m, left, start + [c.issue], skipped, goal)
            else Progress(w, inputs, m, left, start, skipped[c.issue := SkipOf(inputs, m, c)], goal)
  {
    hide WhyNot, IsCarry, SkipOf, FirstOf, Issues, EligibleOf, Skips;
    var room := MaxSlots(inputs.config) - |start|;
    EligibleOfCons(w, inputs, m, c, left);
    SkipsCons(w, inputs, m, c, left, room);
    var rest := EligibleOf(w, inputs, m, left);
    if IsCarry(w, inputs, m, c) {
    } else if WhyNot(inputs, m, c).None? && room > 0 {
      StartOne(start, c.issue, Issues(rest), room);
    } else {
      SkipOne(skipped, c.issue, SkipOf(inputs, m, c), Skips(w, inputs, m, left, room));
      NothingFits(c.issue, Issues(rest));
    }
  }

  lemma NothingFits(issue: int, rest: seq<int>)
    ensures forall room: int :: room <= 0 ==> FirstOf([issue] + rest, room) == FirstOf(rest, room)
  {}

  lemma SkipsCons(w: Window, inputs: Inputs, m: Moment, c: Candidate, left: seq<Candidate>, room: int)
    ensures Skips(w, inputs, m, [c] + left, room)
         == if IsCarry(w, inputs, m, c) then Skips(w, inputs, m, left, room)
            else if WhyNot(inputs, m, c).None? && room > 0 then Skips(w, inputs, m, left, room - 1)
            else map[c.issue := SkipOf(inputs, m, c)] + Skips(w, inputs, m, left, room)
  {
    assert ([c] + left)[1..] == left;
  }

  lemma EligibleOfCons(w: Window, inputs: Inputs, m: Moment, c: Candidate, left: seq<Candidate>)
    ensures Eligible(w, inputs, m, c) ==>
              Issues(EligibleOf(w, inputs, m, [c] + left)) == [c.issue] + Issues(EligibleOf(w, inputs, m, left))
    ensures !Eligible(w, inputs, m, c) ==> EligibleOf(w, inputs, m, [c] + left) == EligibleOf(w, inputs, m, left)
  {
    assert ([c] + left)[1..] == left;
    assert [] + EligibleOf(w, inputs, m, left) == EligibleOf(w, inputs, m, left);
  }

  // The plan's loop over the candidates in order.
  method FillSlots(ghost w: Window, inputs: Inputs, m: Moment, resumed: Option<int>, ordered: seq<Candidate>,
                   head: seq<int>, headSkips: map<int, Skip>)
    returns (start: seq<int>, skipped: map<int, Skip>)
    requires resumed == if CarryOk(w, inputs.config, m) then Some(w.carry.value.issue) else None
    ensures start == head + FirstOf(Issues(EligibleOf(w, inputs, m, ordered)), MaxSlots(inputs.config) - |head|)
    ensures skipped == headSkips + Skips(w, inputs, m, ordered, MaxSlots(inputs.config) - |head|)
  {
    start, skipped := head, headSkips;
    hide Progress, EligibleOf, Skips, FirstOf, Issues;
    var slots := MaxSlots(inputs.config);
    var exempt := ExemptIssues(inputs.candidates, m);
    ghost var room := slots - |head|;
    ghost var goal := Plan(head + FirstOf(Issues(EligibleOf(w, inputs, m, ordered)), room), OutsideWindow,
                           headSkips + Skips(w, inputs, m, ordered, room));
    var i := 0;
    assert ordered[0..] == ordered;
    ProgressBegins(w, inputs, m, ordered, head, headSkips);
    while i < |ordered|
      invariant 0 <= i <= |ordered|
      invariant Progress(w, inputs, m, ordered[i..], start, skipped, goal)
    {
      var c := ordered[i];
      assert ordered[i..] == [c] + ordered[i + 1..];
      OneCandidate(w, inputs, m, c, ordered[i + 1..], start, skipped, goal);
      i := i + 1;
      if resumed == Some(c.issue) {
        continue;
      }
      var unmet := Unmet(c.dependsOn, inputs.merged);
      if !m.open && c.issue !in exempt {
        skipped := skipped[c.issue := OutsideRunWindow];
      } else if inputs.suggestedRefused.Some? && inputs.suggestedRefused.value != "" && c.cls == Suggested {
        skipped := skipped[c.issue := Refused(inputs.suggestedRefused.value)];
      } else if c.issue in inputs.capped {
        skipped := skipped[c.issue := CappedDelivery(inputs.capped[c.issue])];
      } else if unmet.Some? {
        skipped := skipped[c.issue := NotMerged(unmet.value)];
      } else if |start| >= slots {
        skipped := skipped[c.issue := SlotsFull];
      } else {
        start := start + [c.issue];
      }
    }
    assert ordered[i..] == [];
    ProgressEnds(w, inputs, m, start, skipped, goal);
  }

  // The plan's early returns.
  method StopNow(now: int, ledger: Ledger, inputs: Inputs) returns (stop: Option<Reason>)
    ensures stop == Stop(ledger.window, inputs, now)
  {
    var w := ledger.window;
    if w.RateLimited(now) {
      return Some(RateLimitedUntil(w.rateLimitedUntil.value));
    }
    if inputs.halted {
      return Some(Halted);
    }
    if w.halt.Some? {
      return Some(HaltedBy(w.halt.value));
    }
    var stopped := UsageStop(w, inputs.config, now);
    if stopped.Some? {
      return Some(UsageStopped(stopped.value, inputs.config.sessionStopPct));
    }
    return None;
  }

  // `plan`
  method MakePlan(now: int, ledger: Ledger, inputs: Inputs) returns (plan: Plan)
    ensures plan == PlanAt(ledger.window, inputs, now)
  {
    hide Eligible, EligibleOf, Skips, FirstOf, Issues, MomentOf, Stop, Ordered;
    var w := ledger.window;
    var stop := StopNow(now, ledger, inputs);
    if stop.Some? {
      return Plan([], stop.value, map[]);
    }
    var m := MomentOf(w, inputs.config, now);
    var resumed := if CarryOk(w, inputs.config, m) then Some(w.carry.value.issue) else None;
    if !m.open && resumed.None? && ExemptIssues(inputs.candidates, m) == {} {
      return Plan([], OutsideWindow, map[]);
    }
    var start: seq<int>, skipped: map<int, Skip> := [], map[];
    if resumed.Some? {
      if resumed.value in inputs.capped {
        skipped := skipped[resumed.value := CappedDelivery(inputs.capped[resumed.value])];
      } else {
        start := start + [resumed.value];
      }
    }
    start, skipped := FillSlots(w, inputs, m, resumed, Ordered(inputs.candidates), start, skipped);
    plan := Plan(start, Slots(|start|, MaxSlots(inputs.config), w.SessionUtilization(None)), skipped);
  }

  // ---- what the plan promises ----

  lemma {:induction false} EligibleOfMembers(w: Window, inputs: Inputs, m: Moment, cs: seq<Candidate>)
    ensures forall c :: c in EligibleOf(w, inputs, m, cs) <==> c in cs && Eligible(w, inputs, m, c)
    ensures InOrder(cs) ==> InOrder(EligibleOf(w, inputs, m, cs))
  {
    if cs != [] {
      EligibleOfMembers(w, inputs, m, cs[1..]);
      assert cs == [cs[0]] + cs[1..];
      var rest := EligibleOf(w, inputs, m, cs[1..]);
      if InOrder(cs) {
        forall k | 0 <= k < |rest| ensures AtOrBefore(PlaceOf(cs[0]), PlaceOf(rest[k])) {
          assert rest[k] in cs[1..];
          var j :| 0 <= j < |cs[1..]| && cs[1..][j] == rest[k];
          assert cs[j + 1] == rest[k];
        }
      }
    }
  }

  lemma NothingExempt(inputs: Inputs, m: Moment, c: Candidate)
    requires !m.open && ExemptIssues(inputs.candidates, m) == {}
    ensures WhyNot(inputs, m, c).Some?
  {}

  // The plan starts exactly what `StartsAt` names, the early returns included.
  lemma PlanStarts(w: Window, inputs: Inputs, now: int)
    ensures PlanAt(w, inputs, now).start == StartsAt(w, inputs, now)
  {
    var m := MomentOf(w, inputs.config, now);
    if Stop(w, inputs, now).None? && NothingMayStart(w, inputs, m) {
      var es := EligibleOf(w, inputs, m, Ordered(inputs.candidates));
      EligibleOfMembers(w, inputs, m, Ordered(inputs.candidates));
      if es != [] {
        assert es[0] in es;
        OrderedMembers(inputs.candidates);
        NothingExempt(inputs, m, es[0]);
        assert false;
      }
    }
  }

  // Nothing stops the plan exactly when admission would refuse nothing at that instant and
  // neither halt stands; and it blames the usage only when nothing asked before it holds.
  lemma StopsExactly(w: Window, inputs: Inputs, now: int)
    ensures Stop(w, inputs, now).None? <==> Refusal(w, inputs.config, now).None? && !inputs.halted && w.halt.None?
    ensures Stop(w, inputs, now).Some? && Stop(w, inputs, now).value.UsageStopped? ==>
              Refusal(w, inputs.config, now) == Stop(w, inputs, now) && !w.RateLimited(now) && !inputs.halted
                  && w.halt.None?
  {}

  // Admission never refuses what the plan starts, and nothing starts under a halt.
  lemma PlanAgreesWithAdmission(w: Window, inputs: Inputs, now: int)
    requires PlanAt(w, inputs, now).start != []
    ensures Refusal(w, inputs.config, now).None?
    ensures !inputs.halted && w.halt.None?
  {}

  // ---- partition ----

  // The issues started among `cs`, with `room` slots left for them.
  function StartedOf(w: Window, inputs: Inputs, m: Moment, cs: seq<Candidate>, room: int): seq<int> {
    FirstOf(Issues(EligibleOf(w, inputs, m, cs)), room)
  }

  function RoomAfter(w: Window, inputs: Inputs, m: Moment, c: Candidate, room: int): int {
    if Eligible(w, inputs, m, c) && room > 0 then room - 1 else room
  }

  // What the first candidate adds to what is started, and to what is skipped.
  lemma FirstAdds(w: Window, inputs: Inputs, m: Moment, c: Candidate, rest: seq<Candidate>, room: int)
    ensures var next := RoomAfter(w, inputs, m, c, room);
            StartedOf(w, inputs, m, [c] + rest, room)
            == (if Eligible(w, inputs, m, c) && room > 0 then [c.issue] else []) + StartedOf(w, inputs, m, rest, next)
    ensures var next := RoomAfter(w, inputs, m, c, room);
            Skips(w, inputs, m, [c] + rest, room)
            == if IsCarry(w, inputs, m, c) || (Eligible(w, inputs, m, c) && room > 0)
               then Skips(w, inputs, m, rest, next)
               else map[c.issue := SkipOf(inputs, m, c)] + Skips(w, inputs, m, rest, next)
  {
    hide WhyNot, IsCarry, SkipOf;
    EligibleOfCons(w, inputs, m, c, rest);
    assert ([c] + rest)[1..] == rest;
  }

  lemma {:induction false} SkipsComplete(w: Window, inputs: Inputs, m: Moment,
                                         cs: seq<Candidate>, room: int, c: Candidate)
    requires c in cs && !IsCarry(w, inputs, m, c)
    ensures c.issue in StartedOf(w, inputs, m, cs, room) || c.issue in Skips(w, inputs, m, cs, room)
  {
    hide StartedOf, Skips, Eligible, IsCarry, SkipOf, RoomAfter;
    var d, rest := cs[0], cs[1..];
    assert cs == [d] + rest;
    FirstAdds(w, inputs, m, d, rest, room);
    if c != d { SkipsComplete(w, inputs, m, rest, RoomAfter(w, inputs, m, d, room), c); }
  }

  lemma {:induction false} OnlyCandidates(w: Window, inputs: Inputs, m: Moment, cs: seq<Candidate>, room: int, k: int)
    requires k in StartedOf(w, inputs, m, cs, room) || k in Skips(w, inputs, m, cs, room)
    ensures exists c :: c in cs && c.issue == k
  {
    hide StartedOf, Skips, Eligible, IsCarry, SkipOf, RoomAfter;
    if cs == [] {
      NothingPlanned(w, inputs, m, room);
    } else {
      var d, rest := cs[0], cs[1..];
      assert cs == [d] + rest && d in cs;
      FirstAdds(w, inputs, m, d, rest, room);
      if k != d.issue {
        OnlyCandidates(w, inputs, m, rest, RoomAfter(w, inputs, m, d, room), k);
        var c :| c in rest && c.issue == k;
        assert c in cs;
      }
    }
  }

  lemma NothingPlanned(w: Window, inputs: Inputs, m: Moment, room: int)
    ensures StartedOf(w, inputs, m, [], room) == [] && Skips(w, inputs, m, [], room) == map[]
  {}

  ghost predicate DistinctIssues(cs: seq<Candidate>) {
    forall i, j :: 0 <= i < j < |cs| ==> cs[i].issue != cs[j].issue
  }

  lemma {:induction false} SkipsExact(w: Window, inputs: Inputs, m: Moment, cs: seq<Candidate>, room: int, c: Candidate)
    requires DistinctIssues(cs) && c in cs && !IsCarry(w, inputs, m, c) && c.issue in Skips(w, inputs, m, cs, room)
    ensures Skips(w, inputs, m, cs, room)[c.issue] == SkipOf(inputs, m, c)
    ensures c.issue !in StartedOf(w, inputs, m, cs, room)
  {
    hide StartedOf, Skips, Eligible, IsCarry, SkipOf, RoomAfter;
    var d, rest := cs[0], cs[1..];
    var next := RoomAfter(w, inputs, m, d, room);
    assert cs == [d] + rest;
    FirstAdds(w, inputs, m, d, rest, room);
    if c in rest {
      assert c.issue != d.issue;
      SkipsExact(w, inputs, m, rest, next, c);
    } else {
      assert c == d;
      NotAgain(w, inputs, m, rest, next, d);
    }
  }

  lemma NotAgain(w: Window, inputs: Inputs, m: Moment, rest: seq<Candidate>, room: int, d: Candidate)
    requires forall c :: c in rest ==> c.issue != d.issue
    ensures d.issue !in StartedOf(w, inputs, m, rest, room) && d.issue !in Skips(w, inputs, m, rest, room)
  {
    hide StartedOf, Skips;
    if d.issue in StartedOf(w, inputs, m, rest, room) || d.issue in Skips(w, inputs, m, rest, room) {
      OnlyCandidates(w, inputs, m, rest, room, d.issue);
    }
  }

  // Past the early returns every candidate but the carry is started or skipped; with one
  // candidate an issue it is exactly one of the two, and the skip says the first rule it met.
  lemma PlanPartitions(w: Window, inputs: Inputs, now: int, c: Candidate)
    requires PlanAt(w, inputs, now).reason.Slots? && c in inputs.candidates
    requires !IsCarry(w, inputs, MomentOf(w, inputs.config, now), c)
    ensures var plan := PlanAt(w, inputs, now);
            c.issue in plan.start || c.issue in plan.skipped
    ensures var plan := PlanAt(w, inputs, now);
            DistinctIssues(inputs.candidates) ==>
              && (c.issue in plan.start <==> c.issue !in plan.skipped)
              && (c.issue in plan.skipped ==>
                  plan.skipped[c.issue] == SkipOf(inputs, MomentOf(w, inputs.config, now), c))
  {
    hide WhyNot, SkipOf, Skips, EligibleOf, Ordered, MomentOf, FirstOf, Issues;
    var m := MomentOf(w, inputs.config, now);
    var ordered := Ordered(inputs.candidates);
    var room := MaxSlots(inputs.config) - |Head(w, inputs, m)|;
    OrderedMembers(inputs.candidates);
    SkipsComplete(w, inputs, m, ordered, room, c);
    if DistinctIssues(inputs.candidates) {
      OrderedDistinct(inputs.candidates);
      if c.issue in Skips(w, inputs, m, ordered, room) { SkipsExact(w, inputs, m, ordered, room, c); }
    }
  }

  lemma {:induction false} OrderedDistinct(cs: seq<Candidate>)
    requires DistinctIssues(cs)
    ensures DistinctIssues(Ordered(cs))
  {
    if cs != [] {
      OrderedDistinct(cs[1..]);
      OrderedMembers(cs[1..]);
      var rest := Ordered(cs[1..]);
      forall k | 0 <= k < |rest| ensures rest[k].issue != cs[0].issue {
        assert rest[k] in cs[1..];
      }
      InsertDistinct(cs[0], rest);
    }
  }

  lemma {:induction false} InsertDistinct(c: Candidate, ordered: seq<Candidate>)
    requires DistinctIssues(ordered) && forall k :: 0 <= k < |ordered| ==> ordered[k].issue != c.issue
    ensures DistinctIssues(Insert(c, ordered))
    ensures forall d :: d in Insert(c, ordered) ==> d == c || d in ordered
  {
    if ordered != [] && !AtOrBefore(PlaceOf(c), PlaceOf(ordered[0])) {
      InsertDistinct(c, ordered[1..]);
      var rest := Insert(c, ordered[1..]);
      forall k | 0 <= k < |rest| ensures rest[k].issue != ordered[0].issue {
        assert rest[k] in rest;
      }
    }
  }

  // ---- greed ----

  lemma GreedyPrefix(es: seq<Candidate>, room: int, i: nat)
    requires InOrder(es) && i < |es| && es[i].issue !in FirstOf(Issues(es), room)
    ensures var first := FirstOf(Issues(es), room);
            |first| >= room && forall k :: 0 <= k < |first| ==>
                k < i && first[k] == es[k].issue && AtOrBefore(PlaceOf(es[k]), PlaceOf(es[i]))
  {
    var first := FirstOf(Issues(es), room);
    assert forall k :: 0 <= k < |first| ==> first[k] in first && first[k] == es[k].issue;
  }

  // `d` is a candidate that may start and comes at or before `c`.
  ghost predicate Precedes(w: Window, inputs: Inputs, m: Moment, d: Candidate, c: Candidate) {
    d in inputs.candidates && Eligible(w, inputs, m, d) && AtOrBefore(PlaceOf(d), PlaceOf(c))
  }

  ghost predicate PrecededBy(w: Window, inputs: Inputs, m: Moment, issue: int, c: Candidate) {
    exists d :: Precedes(w, inputs, m, d, c) && d.issue == issue
  }

  lemma ChosenIsGreedy(w: Window, inputs: Inputs, m: Moment, es: seq<Candidate>, c: Candidate)
    requires es == EligibleOf(w, inputs, m, Ordered(inputs.candidates)) && c in es && c.issue !in Chosen(w, inputs, m)
    ensures |Chosen(w, inputs, m)| >= MaxSlots(inputs.config)
    ensures var h := |Head(w, inputs, m)|;
            h <= |Chosen(w, inputs, m)| <= h + |es| &&
            forall k :: h <= k < |Chosen(w, inputs, m)| ==>
                Chosen(w, inputs, m)[k] == es[k - h].issue && AtOrBefore(PlaceOf(es[k - h]), PlaceOf(c))
  {
    hide Eligible, EligibleOf, Ordered, AtOrBefore;
    var ordered := Ordered(inputs.candidates);
    OrderedSorts(inputs.candidates);
    EligibleOfMembers(w, inputs, m, ordered);
    var i :| 0 <= i < |es| && es[i] == c;
    GreedyPrefix(es, MaxSlots(inputs.config) - |Head(w, inputs, m)|, i);
  }

  lemma StartedPrecedes(w: Window, inputs: Inputs, m: Moment, es: seq<Candidate>, k: nat, c: Candidate)
    requires es == EligibleOf(w, inputs, m, Ordered(inputs.candidates)) && k < |es|
               && AtOrBefore(PlaceOf(es[k]), PlaceOf(c))
    ensures Precedes(w, inputs, m, es[k], c)
  {
    OrderedMembers(inputs.candidates);
    EligibleOfMembers(w, inputs, m, Ordered(inputs.candidates));
    assert es[k] in es;
  }

  lemma CandidateIsEligible(w: Window, inputs: Inputs, m: Moment, c: Candidate)
    requires c in inputs.candidates && Eligible(w, inputs, m, c)
    ensures c in EligibleOf(w, inputs, m, Ordered(inputs.candidates))
  {
    OrderedMembers(inputs.candidates);
    EligibleOfMembers(w, inputs, m, Ordered(inputs.candidates));
  }

  // A candidate that could start and did not finds the slots full, and everything started in
  // its stead, the carry aside, comes at or before it in the order.
  lemma PlanIsGreedy(w: Window, inputs: Inputs, m: Moment, c: Candidate)
    requires c in inputs.candidates && Eligible(w, inputs, m, c) && c.issue !in Chosen(w, inputs, m)
    ensures |Chosen(w, inputs, m)| >= MaxSlots(inputs.config)
    ensures Head(w, inputs, m) <= Chosen(w, inputs, m)
    ensures forall k :: |Head(w, inputs, m)| <= k < |Chosen(w, inputs, m)| ==>
              PrecededBy(w, inputs, m, Chosen(w, inputs, m)[k], c)
  {
    hide Eligible, AtOrBefore, EligibleOf, Head;
    var es := EligibleOf(w, inputs, m, Ordered(inputs.candidates));
    CandidateIsEligible(w, inputs, m, c);
    ChosenIsGreedy(w, inputs, m, es, c);
    var h := |Head(w, inputs, m)|;
    forall k | h <= k < |Chosen(w, inputs, m)|
      ensures PrecededBy(w, inputs, m, Chosen(w, inputs, m)[k], c)
    {
      assert Chosen(w, inputs, m)[k] == es[k - h].issue;
      StartedPrecedes(w, inputs, m, es, k - h, c);
      assert Precedes(w, inputs, m, es[k - h], c);
    }
  }

  // ---- order independence ----

  function Places(cs: seq<Candidate>): seq<Place> {
    Mapped(PlaceOf, cs)
  }

  ghost predicate PlacesInOrder(ps: seq<Place>) {
    forall i, j :: 0 <= i < j < |ps| ==> AtOrBefore(ps[i], ps[j])
  }

  lemma SameFirstPlace(a: seq<Place>, b: seq<Place>)
    requires PlacesInOrder(a) && PlacesInOrder(b) && multiset(a) == multiset(b) && a != []
    ensures b != [] && a[0] == b[0]
  {
    hide AtOrBefore;
    assert a[0] in multiset(b) && b != [];
    assert b[0] in multiset(a);
    OrderIsTotal(a[0], a[0]);
    assert AtOrBefore(a[0], b[0]) && AtOrBefore(b[0], a[0]);
    OrderIsTotal(a[0], b[0]);
  }

  lemma {:induction false} SortedPlacesUnique(a: seq<Place>, b: seq<Place>)
    requires PlacesInOrder(a) && PlacesInOrder(b) && multiset(a) == multiset(b)
    ensures a == b
  {
    hide AtOrBefore;
    if a == [] {
      assert |b| == |multiset(b)| == 0;
    } else {
      SameFirstPlace(a, b);
      HeadOff(a);
      HeadOff(b);
      SortedPlacesUnique(a[1..], b[1..]);
      assert a == [a[0]] + a[1..] && b == [b[0]] + b[1..];
    }
  }

  lemma {:induction false} EligibleOfCounts(w: Window, inputs: Inputs, m: Moment, cs: seq<Candidate>, c: Candidate)
    ensures multiset(EligibleOf(w, inputs, m, cs))[c] == if Eligible(w, inputs, m, c) then multiset(cs)[c] else 0
  {
    if cs != [] {
      assert cs == [cs[0]] + cs[1..];
      EligibleOfCounts(w, inputs, m, cs[1..], c);
    }
  }

  lemma SamePlacesSameIssues(a: seq<Candidate>, b: seq<Candidate>)
    requires InOrder(a) && InOrder(b) && multiset(a) == multiset(b)
    ensures Issues(a) == Issues(b)
  {
    MappedPermute(PlaceOf, a, b);
    SortedPlacesUnique(Places(a), Places(b));
    assert |Places(a)| == |a| && |Places(b)| == |b|;
    forall i | 0 <= i < |a| ensures a[i].issue == b[i].issue {
      assert Places(a)[i] == Places(b)[i];
    }
  }

  lemma SameEligible(w: Window, a: Inputs, b: Inputs, m: Moment, c: Candidate)
    requires b == a.(candidates := b.candidates) && multiset(a.candidates) == multiset(b.candidates)
    ensures Eligible(w, a, m, c) == Eligible(w, b, m, c)
  {
    assert forall d :: d in a.candidates <==> d in multiset(a.candidates);
    assert forall d :: d in b.candidates <==> d in multiset(b.candidates);
    assert ExemptIssues(a.candidates, m) == ExemptIssues(b.candidates, m);
  }

  lemma SameEligibles(w: Window, a: Inputs, b: Inputs, m: Moment, oa: seq<Candidate>, ob: seq<Candidate>)
    requires b == a.(candidates := b.candidates) && multiset(a.candidates) == multiset(b.candidates)
    requires multiset(oa) == multiset(ob)
    ensures multiset(EligibleOf(w, a, m, oa)) == multiset(EligibleOf(w, b, m, ob))
  {
    hide Eligible;
    var ea, eb := EligibleOf(w, a, m, oa), EligibleOf(w, b, m, ob);
    forall c ensures multiset(ea)[c] == multiset(eb)[c] {
      EligibleOfCounts(w, a, m, oa, c);
      EligibleOfCounts(w, b, m, ob, c);
      SameEligible(w, a, b, m, c);
    }
  }

  lemma SameIssuesChosen(w: Window, a: Inputs, b: Inputs, m: Moment)
    requires b == a.(candidates := b.candidates) && multiset(a.candidates) == multiset(b.candidates)
    ensures Issues(EligibleOf(w, a, m, Ordered(a.candidates))) == Issues(EligibleOf(w, b, m, Ordered(b.candidates)))
  {
    hide Eligible, EligibleOf, Ordered, InOrder, Issues;
    var oa, ob := Ordered(a.candidates), Ordered(b.candidates);
    OrderedSorts(a.candidates);
    OrderedSorts(b.candidates);
    EligibleOfMembers(w, a, m, oa);
    EligibleOfMembers(w, b, m, ob);
    SameEligibles(w, a, b, m, oa, ob);
    SamePlacesSameIssues(EligibleOf(w, a, m, oa), EligibleOf(w, b, m, ob));
  }

  // Where two runs see the same moment, they start the same issues in the same order, however
  // their candidates are listed: even candidates of one issue in disagreement about it.
  lemma ChosenOrderIndependent(w: Window, a: Inputs, b: Inputs, m: Moment)
    requires b == a.(candidates := b.candidates) && multiset(a.candidates) == multiset(b.candidates)
    ensures Chosen(w, a, m) == Chosen(w, b, m)
  {
    hide EligibleOf, Ordered, FirstOf, Issues;
    SameIssuesChosen(w, a, b, m);
  }

  // The plan's start does not depend on the order the candidates came in.
  lemma PlanOrderIndependent(w: Window, a: Inputs, b: Inputs, now: int)
    requires b == a.(candidates := b.candidates) && multiset(a.candidates) == multiset(b.candidates)
    ensures PlanAt(w, a, now).start == PlanAt(w, b, now).start
  {
    hide PlanAt, Chosen, UsageStop;
    PlanStarts(w, a, now);
    PlanStarts(w, b, now);
    ChosenOrderIndependent(w, a, b, MomentOf(w, a.config, now));
  }
}
