// The proposals a planning run owes: `_owe_planning` of harness/__main__.py, and the attempts and
// rankings after it, over a run.
module PlanningWork {
  import opened Prelude
  import opened RunWindow
  import opened Ledgers

  const PLANNING_OWED_FOR := 24 * HOUR

  // The record `_owe_planning` leaves.
  function Queueing(record: Option<Owed>, now: int, queued: set<int>): Option<Owed> {
    OwePlanningRecord(KeepRecord(record, queued), queued, now, now + PLANNING_OWED_FOR)
  }

  // `_owe_planning`
  method OweProposals(ledger: Ledger, now: int, queued: set<int>)
    requires ledger.Valid()
    modifies ledger`window
    ensures ledger.Valid()
    ensures ledger.window == old(ledger.window).(planning := Queueing(old(ledger.window).planning, now, queued))
    ensures ItemsOwed(ledger.window.planning) == queued
  {
    QueueingOwes(ledger.window.planning, now, queued);
    ledger.KeepPlanning(queued);
    ledger.OwePlanning(queued, now, now + PLANNING_OWED_FOR);
  }

  // `planned`: an attempt ran, whatever it produced.
  method Planned(ledger: Ledger, item: int)
    requires ledger.Valid()
    modifies ledger`window
    ensures ledger.Valid()
    ensures ledger.window == old(ledger.window).(planning := Attempted(old(ledger.window).planning, item))
    ensures ItemsOwed(ledger.window.planning) == ItemsOwed(old(ledger.window).planning) - {item}
  {
    ledger.KeepPlanning(ItemsOwed(ledger.window.planning) - {item});
  }

  function Attempted(record: Option<Owed>, item: int): Option<Owed> {
    KeepRecord(record, ItemsOwed(record) - {item})
  }

  // ---- runs ----

  // A dispatch that plans, with what is queued for a proposal; one attempt; or a ranking, with
  // what it ranked.
  datatype Event = Dispatch(now: int, queued: set<int>) | Attempt(item: int) | Ranking(ranked: set<int>)

  function OneEvent(record: Option<Owed>, e: Event): Option<Owed> {
    match e
    case Dispatch(now, queued) => Queueing(record, now, queued)
    case Attempt(item) => Attempted(record, item)
    case Ranking(ranked) => KeepRecord(record, ranked)
  }

  function After(record: Option<Owed>, run: seq<Event>): Option<Owed> {
    if run == [] then record else OneEvent(After(record, run[..|run| - 1]), run[|run| - 1])
  }

  // Since its last dispatch, nothing of the run has attempted the item or left it unranked.
  ghost predicate Outstanding(run: seq<Event>, item: int) {
    exists k :: 0 <= k < |run| && QueuedAt(run, k, item) && forall j :: k < j < |run| ==> Spares(run, j, item)
  }

  ghost predicate QueuedAt(run: seq<Event>, k: nat, item: int)
    requires k < |run|
  {
    run[k].Dispatch? && item in run[k].queued
  }

  ghost predicate Spares(run: seq<Event>, j: nat, item: int)
    requires j < |run|
  {
    match run[j]
    case Dispatch(_, queued) => item in queued
    case Attempt(attempted) => item != attempted
    case Ranking(ranked) => item in ranked
  }

  lemma QueueingOwes(record: Option<Owed>, now: int, queued: set<int>)
    ensures ItemsOwed(Queueing(record, now, queued)) == queued
  {}

  // Over any run from no record, exactly the outstanding items are owed: queued at some dispatch,
  // and since then at every dispatch, ranked in every ranking and not attempted.
  lemma {:induction false} OwesExactly(run: seq<Event>, item: int)
    ensures item in ItemsOwed(After(None, run)) <==> Outstanding(run, item)
  {
    if run != [] {
      var last := |run| - 1;
      var front := run[..last];
      OwesExactly(front, item);
      OutstandingSplit(run, item);
      if run[last].Dispatch? { QueueingOwes(After(None, front), run[last].now, run[last].queued); }
    }
  }

  lemma OutstandingSplit(run: seq<Event>, item: int)
    requires run != []
    ensures var last := |run| - 1;
            Outstanding(run, item) <==>
              QueuedAt(run, last, item) || (Outstanding(run[..last], item) && Spares(run, last, item))
  {
    var last := |run| - 1;
    var front := run[..last];
    if Outstanding(run, item) {
      var k :| 0 <= k < |run| && QueuedAt(run, k, item) && forall j :: k < j < |run| ==> Spares(run, j, item);
      if k < last {
        assert QueuedAt(front, k, item);
        forall j | k < j < last ensures Spares(front, j, item) { assert Spares(run, j, item); }
      }
    }
    if Outstanding(front, item) && Spares(run, last, item) {
      var k :| 0 <= k < last && QueuedAt(front, k, item) && forall j :: k < j < last ==> Spares(front, j, item);
      assert QueuedAt(run, k, item);
      forall j | k < j < |run| ensures Spares(run, j, item) {
        if j < last { assert Spares(front, j, item); }
      }
    }
  }

  ghost predicate InTime(run: seq<Event>, now: int) {
    forall k :: 0 <= k < |run| && run[k].Dispatch? ==> run[k].now <= now
  }

  // However often it is dispatched again, a record runs for one day from a dispatch.
  lemma {:induction false} RecordRunsOneDay(run: seq<Event>, now: int)
    requires InTime(run, now)
    ensures var record := After(None, run);
            record.Some? ==>
              && record.value.until == record.value.since + 86400 && record.value.since <= now
              && exists k :: 0 <= k < |run| && run[k].Dispatch? && run[k].now == record.value.since
  {
    if run != [] {
      var front := run[..|run| - 1];
      assert forall k :: 0 <= k < |front| ==> front[k] == run[k];
      RecordRunsOneDay(front, now);
      if After(None, run).Some? && After(None, front).Some?
          && After(None, run).value.since == After(None, front).value.since {
        var k :| 0 <= k < |front| && front[k].Dispatch? && front[k].now == After(None, front).value.since;
        assert run[k] == front[k];
      }
    }
  }
}
