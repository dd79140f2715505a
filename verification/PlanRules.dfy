// The rules of the plan, said of the candidates' own fields: what each thing it starts meets, what
// each thing it leaves out lacks, and in which order it looks.
module PlanRules {
  import opened Prelude
  import opened RunWindow
  import opened Ledgers
  import opened Dispatcher

  // ---- the order in words ----

  // The class stands above the other's.
  ghost predicate Above(a: Class, b: Class) {
    match a
    case Answer => !b.Answer?
    case Unblock => !b.Answer? && !b.Unblock?
    case Directed => b.Audit? || b.Suggested? || b.Unranked?
    case Audit => b.Suggested? || b.Unranked?
    case Suggested => b.Unranked?
    case Unranked(_) => false
  }

  // At the k-th character, the first in which the two differ, the first text has the smaller or has
  // ended.
  ghost predicate EarlierAt(a: string, b: string, k: nat) {
    k <= |a| && k < |b| && a[..k] == b[..k] && (k == |a| || a[k] < b[k])
  }

  ghost predicate Earlier(a: string, b: string) {
    exists k: nat :: EarlierAt(a, b, k)
  }

  lemma SameHead(a: string, b: string, k: nat)
    requires 0 < k <= |a| && k <= |b| && a[..k] == b[..k]
    ensures a[0] == b[0]
  {
    assert a[..k][0] == a[0] && b[..k][0] == b[0];
  }

  lemma EarlierTail(a: string, b: string)
    requires a != [] && b != [] && a[0] == b[0]
    ensures Earlier(a, b) <==> Earlier(a[1..], b[1..])
  {
    if k: nat :| EarlierAt(a[1..], b[1..], k) {
      assert a[..k + 1] == [a[0]] + a[1..][..k] && b[..k + 1] == [b[0]] + b[1..][..k];
      assert EarlierAt(a, b, k + 1);
    }
    if k: nat :| EarlierAt(a, b, k) {
      assert k > 0;
      assert a[1..][..k - 1] == a[..k][1..] && b[1..][..k - 1] == b[..k][1..];
      assert EarlierAt(a[1..], b[1..], k - 1);
    }
  }

  lemma {:induction false} TextBeforeIsEarlier(a: string, b: string)
    ensures TextBefore(a, b) <==> Earlier(a, b)
  {
    if a != [] && b != [] && a[0] == b[0] {
      TextBeforeIsEarlier(a[1..], b[1..]);
      EarlierTail(a, b);
    } else if b != [] {
      if k: nat :| EarlierAt(a, b, k) && k > 0 {
        SameHead(a, b, k);
      }
      assert a[..0] == b[..0];
      assert EarlierAt(a, b, 0) <==> a == [] || a[0] < b[0];
    }
  }

  // Class first; within a class the forced, then the older, then the lower number.
  ghost predicate ComesFirst(a: Candidate, b: Candidate) {
    || Above(a.cls, b.cls)
    || (!Above(b.cls, a.cls)
        && ((a.forced && !b.forced)
            || (a.forced == b.forced
                && (Earlier(a.createdAt, b.createdAt) || (a.createdAt == b.createdAt && a.issue <= b.issue)))))
  }

  lemma OrderInWords(a: Candidate, b: Candidate)
    ensures AtOrBefore(PlaceOf(a), PlaceOf(b)) <==> ComesFirst(a, b)
  {
    TextBeforeIsEarlier(a.createdAt, b.createdAt);
  }

  // ---- the rules in words ----

  function Slots(config: Config): int {
    if config.githubStore then config.maxConcurrent else 1
  }

  // Nothing stops the run: no limit stands, no halt, and the session is under its share.
  ghost predicate Running(w: Window, inputs: Inputs, now: int) {
    && (forall t :: w.rateLimitedUntil == Some(Iso(t)) ==> t <= now)
    && !inputs.halted && w.halt == None
    && (forall s :: w.SessionUtilization(Some(now)) == Some(s) ==> s * 100.0 < inputs.config.sessionStopPct)
  }

  // The run window is open, or lent.
  ghost predicate Opened(w: Window, inputs: Inputs, now: int) {
    InRunWindow(inputs.config.window, now) || exists b :: w.block == Some(b) && now < b.until
  }

  ghost predicate HasTime(w: Window, inputs: Inputs, now: int, c: Candidate) {
    Opened(w, inputs, now) || c.forced || c.issue in w.OwedItems(now)
  }

  ghost predicate Admitted(inputs: Inputs, c: Candidate) {
    c.cls == Suggested ==> inputs.suggestedRefused == None || inputs.suggestedRefused == Some("")
  }

  ghost predicate AllMerged(inputs: Inputs, c: Candidate) {
    forall dep :: dep in c.dependsOn ==> dep in inputs.merged
  }

  ghost predicate MeetsTheRules(w: Window, inputs: Inputs, now: int, c: Candidate) {
    HasTime(w, inputs, now, c) && Admitted(inputs, c) && c.issue !in inputs.capped && AllMerged(inputs, c)
  }

  // The candidate is not the carried item.
  ghost predicate Fresh(w: Window, c: Candidate) {
    forall k :: w.carry == Some(k) ==> k.issue != c.issue
  }

  // The carried item may resume: outside the window too when the window is not a daily one, or
  // when it is owed.
  ghost predicate MayResume(w: Window, inputs: Inputs, now: int, issue: int) {
    || Opened(w, inputs, now)
    || !(exists span :: inputs.config.window == Some(span) && span.daily)
    || issue in w.OwedItems(now)
  }

  // ---- what the functions of the plan amount to ----

  // The k-th dependency is the first not merged.
  ghost predicate FirstMissing(dependsOn: seq<int>, merged: set<int>, k: nat) {
    k < |dependsOn| && dependsOn[k] !in merged && forall j :: 0 <= j < k ==> dependsOn[j] in merged
  }

  lemma {:induction false} UnmetIsTheFirst(dependsOn: seq<int>, merged: set<int>)
    ensures Unmet(dependsOn, merged).None? <==> forall dep :: dep in dependsOn ==> dep in merged
    ensures Unmet(dependsOn, merged).Some? ==>
              exists k: nat :: FirstMissing(dependsOn, merged, k) && dependsOn[k] == Unmet(dependsOn, merged).value
  {
    if dependsOn != [] {
      var rest := dependsOn[1..];
      assert dependsOn == [dependsOn[0]] + rest;
      if dependsOn[0] in merged {
        UnmetIsTheFirst(rest, merged);
        if Unmet(rest, merged).Some? {
          var k: nat :| FirstMissing(rest, merged, k) && rest[k] == Unmet(rest, merged).value;
          assert FirstMissing(dependsOn, merged, k + 1);
        }
      } else {
        var dep := dependsOn[0];
        assert dep in dependsOn && dep !in merged;
        assert FirstMissing(dependsOn, merged, 0);
      }
    }
  }

  lemma OpenedIs(w: Window, inputs: Inputs, now: int)
    ensures MomentOf(w, inputs.config, now).open <==> Opened(w, inputs, now)
    ensures MomentOf(w, inputs.config, now).owed == w.OwedItems(now)
  {}

  lemma RunningIs(w: Window, inputs: Inputs, now: int)
    ensures Stop(w, inputs, now).None? <==> Running(w, inputs, now)
  {}

  lemma ExemptIs(w: Window, inputs: Inputs, now: int, c: Candidate)
    requires DistinctIssues(inputs.candidates) && c in inputs.candidates
    ensures c.issue in ExemptIssues(inputs.candidates, MomentOf(w, inputs.config, now))
        <==> c.forced || c.issue in w.OwedItems(now)
  {
    var i :| 0 <= i < |inputs.candidates| && inputs.candidates[i] == c;
    forall d | d in inputs.candidates && d.issue == c.issue ensures d == c {
      var j :| 0 <= j < |inputs.candidates| && inputs.candidates[j] == d;
    }
  }

  // Why a candidate may not start, by the first rule it does not meet.
  lemma FirstRuleUnmet(w: Window, inputs: Inputs, now: int, c: Candidate)
    requires DistinctIssues(inputs.candidates) && c in inputs.candidates
    ensures var why := WhyNot(inputs, MomentOf(w, inputs.config, now), c);
            && (why.None? <==> MeetsTheRules(w, inputs, now, c))
            && (why.Some? ==> FirstRule(w, inputs, now, c, why.value))
  {
    hide Unmet, MomentOf, ExemptIssues;
    OpenedIs(w, inputs, now);
    ExemptIs(w, inputs, now, c);
    UnmetIsTheFirst(c.dependsOn, inputs.merged);
  }

  // `why` names the first of the rules the candidate does not meet.
  ghost predicate FirstRule(w: Window, inputs: Inputs, now: int, c: Candidate, why: Skip) {
    match why
    case OutsideRunWindow => !HasTime(w, inputs, now, c)
    case Refused(text) =>
      HasTime(w, inputs, now, c) && c.cls == Suggested && text != "" && inputs.suggestedRefused == Some(text)
    case CappedDelivery(text) =>
      && HasTime(w, inputs, now, c) && Admitted(inputs, c)
      && c.issue in inputs.capped && inputs.capped[c.issue] == text
    case NotMerged(dep) =>
      && HasTime(w, inputs, now, c) && Admitted(inputs, c) && c.issue !in inputs.capped
      && exists k: nat :: FirstMissing(c.dependsOn, inputs.merged, k) && c.dependsOn[k] == dep
    case SlotsFull => MeetsTheRules(w, inputs, now, c)
  }

  // ---- what the plan starts ----

  lemma StartedIsChosen(w: Window, inputs: Inputs, now: int)
    ensures PlanAt(w, inputs, now).start
         == if Running(w, inputs, now) then Chosen(w, inputs, MomentOf(w, inputs.config, now)) else []
  {
    PlanStarts(w, inputs, now);
    RunningIs(w, inputs, now);
  }

  lemma TakenFrom(es: seq<Candidate>, n: int, issue: int) returns (c: Candidate)
    requires issue in FirstOf(Issues(es), n)
    ensures c in es && c.issue == issue
  {
    var k :| 0 <= k < |FirstOf(Issues(es), n)| && FirstOf(Issues(es), n)[k] == issue;
    c := es[k];
  }

  lemma OneOfItsIssue(cs: seq<Candidate>, c: Candidate, d: Candidate)
    requires DistinctIssues(cs) && c in cs && d in cs && c.issue == d.issue
    ensures c == d
  {
    var i :| 0 <= i < |cs| && cs[i] == c;
    var j :| 0 <= j < |cs| && cs[j] == d;
  }

  // What starts besides the head is an eligible candidate.
  lemma ChosenIsEligible(w: Window, inputs: Inputs, m: Moment, c: Candidate)
    requires DistinctIssues(inputs.candidates) && c in inputs.candidates
    requires c.issue in Chosen(w, inputs, m) && c.issue !in Head(w, inputs, m)
    ensures Eligible(w, inputs, m, c)
  {
    hide Eligible, FirstOf, Issues, Head;
    var es := EligibleOf(w, inputs, m, Ordered(inputs.candidates));
    var d := TakenFrom(es, MaxSlots(inputs.config) - |Head(w, inputs, m)|, c.issue);
    EligibleOfMembers(w, inputs, m, Ordered(inputs.candidates));
    OrderedMembers(inputs.candidates);
    OneOfItsIssue(inputs.candidates, c, d);
  }

  // Nothing but the carried item is started against the rules: with one candidate an issue,
  // whatever starts runs under no stop, has its time, is admitted, is not capped and has every
  // dependency merged.
  lemma StartedMeetsTheRules(w: Window, inputs: Inputs, now: int, c: Candidate)
    requires DistinctIssues(inputs.candidates) && c in inputs.candidates && Fresh(w, c)
    requires c.issue in PlanAt(w, inputs, now).start
    ensures Running(w, inputs, now) && HasTime(w, inputs, now, c) && Admitted(inputs, c)
    ensures c.issue !in inputs.capped
    ensures forall dep :: dep in c.dependsOn ==> dep in inputs.merged
  {
    hide PlanAt, Chosen, WhyNot, Running, HasTime;
    var m := MomentOf(w, inputs.config, now);
    StartedIsChosen(w, inputs, now);
    ChosenIsEligible(w, inputs, m, c);
    FirstRuleUnmet(w, inputs, now, c);
  }

  // And what meets them all starts, unless the slots are full of others.
  lemma LeftOutFindsTheSlotsFull(w: Window, inputs: Inputs, now: int, c: Candidate)
    requires DistinctIssues(inputs.candidates) && c in inputs.candidates && Fresh(w, c)
    requires Running(w, inputs, now) && MeetsTheRules(w, inputs, now, c) && c.issue !in PlanAt(w, inputs, now).start
    ensures |PlanAt(w, inputs, now).start| >= Slots(inputs.config)
    ensures forall d :: d in inputs.candidates && Fresh(w, d) && d.issue in PlanAt(w, inputs, now).start ==>
              ComesFirst(d, c)
  {
    hide PlanAt, Chosen, WhyNot, Running, MeetsTheRules, AtOrBefore, ComesFirst;
    var m := MomentOf(w, inputs.config, now);
    StartedIsChosen(w, inputs, now);
    FirstRuleUnmet(w, inputs, now, c);
    PlanIsGreedy(w, inputs, m, c);
    forall d | d in inputs.candidates && Fresh(w, d) && d.issue in Chosen(w, inputs, m) ensures ComesFirst(d, c) {
      var k :| 0 <= k < |Chosen(w, inputs, m)| && Chosen(w, inputs, m)[k] == d.issue;
      assert k >= |Head(w, inputs, m)|;
      var e :| Precedes(w, inputs, m, e, c) && e.issue == d.issue;
      OneOfItsIssue(inputs.candidates, d, e);
      OrderInWords(d, c);
    }
  }

  // No more starts than there are slots, the carried item being let in whatever they are.
  lemma SlotsHold(w: Window, inputs: Inputs, now: int)
    ensures |PlanAt(w, inputs, now).start| <= Max(Slots(inputs.config), 1)
    ensures w.carry == None ==> |PlanAt(w, inputs, now).start| <= Max(Slots(inputs.config), 0)
  {
    StartedIsChosen(w, inputs, now);
  }

  // The carried item resumes before anything else, exactly when it may and is not capped.
  lemma CarryResumes(w: Window, inputs: Inputs, now: int)
    requires w.carry.Some? && Running(w, inputs, now)
    requires forall c :: c in inputs.candidates ==> c.issue != w.carry.value.issue
    ensures var issue, start := w.carry.value.issue, PlanAt(w, inputs, now).start;
            && (issue in start <==> MayResume(w, inputs, now, issue) && issue !in inputs.capped)
            && (issue in start ==> start[0] == issue)
  {
    hide Running, PlanAt, Eligible, FirstOf, Issues;
    StartedIsChosen(w, inputs, now);
    OpenedIs(w, inputs, now);
    var issue := w.carry.value.issue;
    var m := MomentOf(w, inputs.config, now);
    var es := EligibleOf(w, inputs, m, Ordered(inputs.candidates));
    var room := MaxSlots(inputs.config) - |Head(w, inputs, m)|;
    if issue in FirstOf(Issues(es), room) {
      var c := TakenFrom(es, room, issue);
      EligibleOfMembers(w, inputs, m, Ordered(inputs.candidates));
      OrderedMembers(inputs.candidates);
      assert false;
    }
  }

  // ---- what it says of the rest ----

  // Past the early returns a candidate that does not start is skipped for the first rule it does
  // not meet, or, meeting them all, because the slots are full.
  lemma SkipNamesTheFirstRule(w: Window, inputs: Inputs, now: int, c: Candidate)
    requires DistinctIssues(inputs.candidates) && c in inputs.candidates && Fresh(w, c)
    requires PlanAt(w, inputs, now).reason.Slots? && c.issue !in PlanAt(w, inputs, now).start
    ensures var plan := PlanAt(w, inputs, now);
            c.issue in plan.skipped && FirstRule(w, inputs, now, c, plan.skipped[c.issue])
  {
    hide PlanAt, WhyNot, FirstRule, MomentOf, MeetsTheRules;
    var m := MomentOf(w, inputs.config, now);
    PlanPartitions(w, inputs, now, c);
    FirstRuleUnmet(w, inputs, now, c);
    MeetsIsSlotsFull(w, inputs, now, c);
  }

  lemma MeetsIsSlotsFull(w: Window, inputs: Inputs, now: int, c: Candidate)
    ensures FirstRule(w, inputs, now, c, SlotsFull) <==> MeetsTheRules(w, inputs, now, c)
  {}

  // A capped carried item is skipped as capped, when it might have resumed.
  lemma CappedCarryIsSkipped(w: Window, inputs: Inputs, now: int)
    requires w.carry.Some? && Running(w, inputs, now) && w.carry.value.issue in inputs.capped
    requires MayResume(w, inputs, now, w.carry.value.issue)
    requires forall c :: c in inputs.candidates ==> c.issue != w.carry.value.issue
    ensures var issue, plan := w.carry.value.issue, PlanAt(w, inputs, now);
            issue in plan.skipped && plan.skipped[issue] == CappedDelivery(inputs.capped[issue])
  {
    hide Running, Skips;
    RunningIs(w, inputs, now);
    OpenedIs(w, inputs, now);
    var m := MomentOf(w, inputs.config, now);
    OrderedMembers(inputs.candidates);
    NotAgain(w, inputs, m, Ordered(inputs.candidates), MaxSlots(inputs.config) - |Head(w, inputs, m)|,
        Candidate(w.carry.value.issue, [], "", false, Answer));
  }

  // The plan that starts nothing says why: the first stop that holds, or that nothing has its time.
  lemma ReasonNamesTheFirstStop(w: Window, inputs: Inputs, now: int)
    ensures var reason := PlanAt(w, inputs, now).reason;
            var limited := exists t :: w.rateLimitedUntil == Some(Iso(t)) && now < t;
            var halted := inputs.halted || w.halt.Some?;
            && (reason.RateLimitedUntil? <==> limited)
            && (reason.RateLimitedUntil? ==> w.rateLimitedUntil == Some(reason.until))
            && (reason == Halted <==> !limited && inputs.halted)
            && (reason.HaltedBy? <==> !limited && !inputs.halted && w.halt.Some?)
            && (reason.HaltedBy? ==> w.halt == Some(reason.halt))
            && (reason.UsageStopped? <==> !limited && !halted && !Running(w, inputs, now))
            && (reason.UsageStopped? ==>
                  && w.SessionUtilization(Some(now)) == Some(reason.session)
                  && reason.limit == inputs.config.sessionStopPct && reason.session * 100.0 >= reason.limit)
            && (reason == OutsideWindow <==>
                  && Running(w, inputs, now) && !Opened(w, inputs, now)
                  && (forall k :: w.carry == Some(k) ==> !MayResume(w, inputs, now, k.issue))
                  && forall c :: c in inputs.candidates ==> !HasTime(w, inputs, now, c))
            && (reason.Slots? ==>
                  && reason.started == |PlanAt(w, inputs, now).start| && reason.slots == Slots(inputs.config)
                  && reason.lastSession == w.SessionUtilization(None))
  {
    RunningIs(w, inputs, now);
    OpenedIs(w, inputs, now);
    var m := MomentOf(w, inputs.config, now);
    hide Chosen, Skips;
    NoneExempt(w, inputs, now);
  }

  lemma NoneExempt(w: Window, inputs: Inputs, now: int)
    ensures var exempt := ExemptIssues(inputs.candidates, MomentOf(w, inputs.config, now));
            exempt == {} <==> forall c :: c in inputs.candidates ==> !c.forced && c.issue !in w.OwedItems(now)
  {
    var exempt := ExemptIssues(inputs.candidates, MomentOf(w, inputs.config, now));
    forall c | c in inputs.candidates && (c.forced || c.issue in w.OwedItems(now)) ensures exempt != {} {
      assert c.issue in exempt;
    }
    if exempt != {} {
      var issue :| issue in exempt;
    }
  }
}
