// The window's owed work: `_owe_window` of harness/__main__.py over a run of dispatches.
module OwedWork {
  import opened Prelude
  import opened RunWindow
  import opened Ledgers

  const SCHEDULED_LATENESS := 6 * HOUR

  // A dispatch counts while the window is open; a scheduled one may also come six hours late.
  predicate Counts(span: Span, now: int, scheduled: bool) {
    InSpan(span, now) || (scheduled && now < Openings(span, now).0 + WindowLength(span) + SCHEDULED_LATENESS)
  }

  // It counts exactly when it comes within the window's length of an opening, or within six hours
  // more when it is scheduled.
  lemma CountsExactly(span: Span, now: int, scheduled: bool)
    requires Proper(span)
    ensures Counts(span, now, scheduled) <==>
              exists o :: IsOpening(span, o) && o <= now < o + WindowLength(span) + if scheduled then 21600 else 0
  {
    hide IsOpening;
    WindowFunctionsAgree(span, now);
    var latest := Openings(span, now).0;
    forall o | IsOpening(span, o) && o <= now ensures o <= latest {
      if now < o + Period(span) { LatestOpening(span, o, now); }
    }
    if Counts(span, now, scheduled) {
      assert IsOpening(span, latest);
    }
  }

  // The record `_owe_window` leaves.
  function Owing(window: Option<Span>, record: Option<Owed>, now: int, approved: set<int>,
                 scheduled: bool): Option<Owed> {
    var kept := KeepRecord(record, approved);
    if window.Some? && Counts(window.value, now, scheduled)
    then OweRecord(kept, approved, Openings(window.value, now).0, Openings(window.value, now).1)
    else kept
  }

  // `_owe_window`
  method OweWindow(ledger: Ledger, window: Option<Span>, now: int, approved: set<int>, scheduled: bool)
    requires ledger.Valid()
    modifies ledger`window
    ensures ledger.Valid()
    ensures ledger.window == old(ledger.window).(owed := Owing(window, old(ledger.window).owed, now, approved,
              scheduled))
  {
    ledger.KeepOwed(approved);
    if window.None? {
      return;
    }
    var latest, following := Openings(window.value, now).0, Openings(window.value, now).1;
    var late := scheduled && now < latest + WindowLength(window.value) + SCHEDULED_LATENESS;
    if InRunWindow(window, now) || late {
      ledger.Owe(approved, latest, following);
    }
  }

  // ---- runs ----

  datatype Dispatch = Dispatch(now: int, approved: set<int>, scheduled: bool)

  function After(span: Span, record: Option<Owed>, run: seq<Dispatch>): Option<Owed> {
    if run == [] then record
    else
      var d := run[|run| - 1];
      Owing(Some(span), After(span, record, run[..|run| - 1]), d.now, d.approved, d.scheduled)
  }

  ghost predicate InTime(run: seq<Dispatch>) {
    forall i, j :: 0 <= i < j < |run| ==> run[i].now <= run[j].now
  }

  // The record spans exactly one period of the window: from an opening already past at `now`
  // to the very next one.
  ghost predicate OnePeriod(span: Span, record: Option<Owed>, now: int) {
    record.Some? ==>
      && IsOpening(span, record.value.since) && record.value.since <= now
      && record.value.until == record.value.since + Period(span)
  }

  lemma OneDispatch(span: Span, record: Option<Owed>, d: Dispatch, before: int)
    requires Proper(span) && OnePeriod(span, record, before) && before <= d.now
    ensures OnePeriod(span, Owing(Some(span), record, d.now, d.approved, d.scheduled), d.now)
  {
    WindowFunctionsAgree(span, d.now);
  }

  // Over any run of dispatches in time order, from no record: the record begins at an opening
  // already past and ends at the next opening after it.
  lemma {:induction false} RecordSpansOnePeriod(span: Span, run: seq<Dispatch>)
    requires Proper(span) && InTime(run) && run != []
    ensures OnePeriod(span, After(span, None, run), run[|run| - 1].now)
  {
    var front := run[..|run| - 1];
    if front != [] {
      RecordSpansOnePeriod(span, front);
      OneDispatch(span, After(span, None, front), run[|run| - 1], front[|front| - 1].now);
    } else {
      OneDispatch(span, None, run[|run| - 1], run[|run| - 1].now);
    }
  }

  // So a record has begun by any instant after the last dispatch, as the relay assumes.
  lemma OwedSinceIsPast(span: Span, run: seq<Dispatch>, t: int)
    requires Proper(span) && InTime(run) && run != [] && run[|run| - 1].now <= t
    ensures After(span, None, run).Some? ==> After(span, None, run).value.since <= t
  {
    RecordSpansOnePeriod(span, run);
  }

  // A dispatch before the end keeps an owed item that is still approved, and the same end.
  lemma StaysOwed(span: Span, record: Option<Owed>, d: Dispatch, before: int, item: int, end: int)
    requires Proper(span) && OnePeriod(span, record, before) && before <= d.now < end
    requires record.Some? && record.value.until == end && item in Elements(record.value.items) && item in d.approved
    ensures var next := Owing(Some(span), record, d.now, d.approved, d.scheduled);
            next.Some? && next.value.until == end && item in Elements(next.value.items)
  {
    WindowFunctionsAgree(span, d.now);
    LatestOpening(span, record.value.since, d.now);
    assert item in Elements(record.value.items) * d.approved;
  }

  // An item approved at a counting dispatch is owed from it on.
  lemma BecomesOwed(span: Span, record: Option<Owed>, d: Dispatch, before: int, item: int)
    requires Proper(span) && OnePeriod(span, record, before) && before <= d.now
    requires Counts(span, d.now, d.scheduled) && item in d.approved
    ensures var next := Owing(Some(span), record, d.now, d.approved, d.scheduled);
            next.Some? && next.value.until == Openings(span, d.now).1 && item in Elements(next.value.items)
  {
    WindowFunctionsAgree(span, d.now);
    if record.Some? && d.now < record.value.until {
      LatestOpening(span, record.value.since, d.now);
    }
  }

  // The k-th dispatch of the run put the item on the record, and no later one has taken it off.
  ghost predicate OwedFrom(span: Span, run: seq<Dispatch>, k: nat, item: int, until: int)
    requires k < |run|
  {
    && Counts(span, run[k].now, run[k].scheduled) && until == Openings(span, run[k].now).1
    && forall j :: k <= j < |run| ==> item in run[j].approved
  }

  // Nothing else is ever owed: an item on the record was approved at a dispatch that counted, to
  // whose next opening the record runs, and at every dispatch since.
  lemma {:induction false} OnlyCountedIsOwed(span: Span, run: seq<Dispatch>, item: int) returns (k: nat)
    requires After(span, None, run).Some? && item in After(span, None, run).value.items
    ensures k < |run| && OwedFrom(span, run, k, item, After(span, None, run).value.until)
  {
    hide Counts, Openings, Owing;
    var last := |run| - 1;
    var front, d := run[..last], run[last];
    var before := After(span, None, front);
    StillApproved(span, before, d, item);
    if Counts(span, d.now, d.scheduled) && After(span, None, run).value.until == Openings(span, d.now).1 {
      k := last;
    } else {
      k := OnlyCountedIsOwed(span, front, item);
      OneMoreApproved(span, run, k, item, before.value.until);
    }
  }

  lemma OneMoreApproved(span: Span, run: seq<Dispatch>, k: nat, item: int, until: int)
    requires k < |run| - 1 && OwedFrom(span, run[..|run| - 1], k, item, until) && item in run[|run| - 1].approved
    ensures OwedFrom(span, run, k, item, until)
  {
    hide Counts, Openings;
    var front := run[..|run| - 1];
    forall j | k <= j < |run| ensures item in run[j].approved {
      if j < |front| { assert front[j] == run[j]; }
    }
  }

  lemma StillApproved(span: Span, record: Option<Owed>, d: Dispatch, item: int)
    requires var next := Owing(Some(span), record, d.now, d.approved, d.scheduled);
             next.Some? && item in next.value.items
    ensures item in d.approved
    ensures var next := Owing(Some(span), record, d.now, d.approved, d.scheduled);
            || (Counts(span, d.now, d.scheduled) && next.value.until == Openings(span, d.now).1)
            || (record.Some? && item in record.value.items && next.value.until == record.value.until)
  {
    hide Counts, Openings;
    var next := Owing(Some(span), record, d.now, d.approved, d.scheduled);
    assert item in Elements(next.value.items);
    if record.Some? { assert forall x :: x in Elements(record.value.items) ==> x in record.value.items; }
  }

  lemma {:induction false} StaysOwedToTheEnd(span: Span, run: seq<Dispatch>, k: nat, item: int)
    requires Proper(span) && InTime(run) && k < |run|
    requires Counts(span, run[k].now, run[k].scheduled)
    requires forall j :: k <= j < |run| ==> item in run[j].approved && run[j].now < Openings(span, run[k].now).1
    ensures var record := After(span, None, run);
            record.Some? && record.value.until == Openings(span, run[k].now).1 && item in Elements(record.value.items)
  {
    var last := |run| - 1;
    var front := run[..last];
    var before := if front == [] then run[last].now else front[|front| - 1].now;
    if front != [] {
      RecordSpansOnePeriod(span, front);
    }
    if k == last {
      BecomesOwed(span, After(span, None, front), run[last], before, item);
    } else {
      StaysOwedToTheEnd(span, front, k, item);
      StaysOwed(span, After(span, None, front), run[last], before, item, Openings(span, run[k].now).1);
    }
  }

  // An item approved at a counting dispatch and at every later one is owed at every instant
  // from the last of them until the window's next opening.
  lemma OwedUntilTheNextOpening(span: Span, run: seq<Dispatch>, k: nat, item: int, t: int)
    requires Proper(span) && InTime(run) && k < |run|
    requires Counts(span, run[k].now, run[k].scheduled)
    requires forall j :: k <= j < |run| ==> item in run[j].approved
    requires run[|run| - 1].now <= t < Openings(span, run[k].now).1
    ensures item in OwedAt(After(span, None, run), t)
  {
    StaysOwedToTheEnd(span, run, k, item);
    RecordSpansOnePeriod(span, run);
  }

  // And nothing any dispatch up to an opening recorded is owed at that opening or after it.
  lemma NothingOwedPastTheOpening(span: Span, run: seq<Dispatch>, opening: int, t: int)
    requires Proper(span) && InTime(run) && run != []
    requires IsOpening(span, opening) && run[|run| - 1].now < opening <= t
    ensures OwedAt(After(span, None, run), t) == {}
  {
    RecordSpansOnePeriod(span, run);
    var record := After(span, None, run);
    if record.Some? && opening < record.value.until {
      OpeningUnique(span, record.value.since, opening);
    }
  }
}
