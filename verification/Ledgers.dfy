// The ledger of harness/ledger.py: one window of facts, the sweep's cursors, and a history.
module Ledgers {
  import opened Prelude
  import opened RunWindow
  import opened Strings

  const HISTORY_CAP := 500
  const SESSION := 5 * HOUR

  // ---- values ----

  // A stored text, sorted by what `parse_iso` makes of it: an instant, or words it cannot read.
  datatype Text = Plain(words: string) | Iso(instant: int)

  // What a ledger file, or the usage signal, may hold.
  datatype Json =
    | Null
    | Bool(flag: bool)
    | Int(n: int)
    | Float(r: real)
    | Str(text: Text)
    | List(items: seq<Json>)
    | Object(fields: map<Key, Json>)
    | Named(entries: map<string, Json>) // an object keyed by names, not by fields

  // A field's name: the ones the harness writes or reads, and any other.
  datatype Key =
    // the file
    | SchemaKey | WindowKey | CursorsKey | HistoryKey
    // the window
    | PeriodStart | Calls | RateLimitedKey | UsageKey | HaltKey | CarryKey | BlockKey | OwedKey | PlanningKey | QuietKey
    // the usage signal
    | FiveHour | SevenDay | ObservedAtKey | Utilization | ResetsAt | ResetsAtCli
    // the records
    | ActorKey | ReasonKey | AtKey | IssueKey | SinceKey | UntilKey | SessionsKey | AnchorKey | ItemsKey | QuietFlag
    // the cursors
    | LastSeen | SeenIds | Denied | Forced | AsksKey | DateKey | CountKey | PrunedAt | RetryKey | RepoKey | SurfaceKey
        | NumberKey | CommentIdKey
    // the history
    | TsKey | StageKey | RunKey
    | Other(name: string)

  function Get(fields: map<Key, Json>, key: Key): Json {
    if key in fields then fields[key] else Null
  }

  predicate Truthy(value: Json) {
    match value
    case Null => false
    case Bool(b) => b
    case Int(n) => n != 0
    case Float(r) => r != 0.0
    case Str(t) => t != Plain("")
    case List(items) => items != []
    case Object(fields) => fields != map[]
    case Named(entries) => entries != map[]
  }

  function InstantOf(value: Json): Option<int> {
    match value
    case Str(Iso(t)) => Some(t)
    case _ => None
  }

  // `str(value)`, where the text of a value that is not text is unreadable words.
  function StrOf(value: Json): Text {
    match value
    case Str(t) => t
    case _ => Plain("not text")
  }

  // `str(text).strip()`
  function StrippedText(text: Text): Text {
    match text
    case Plain(words) => Plain(Strip(words))
    case Iso(_) => text
  }

  // `_fraction`
  function Fraction(value: Json): Option<real> {
    match value
    case Int(n) => Some(n as real)
    case Float(r) => Some(r)
    case _ => None
  }

  function OptionalFloat(r: Option<real>): Json {
    match r
    case Some(x) => Float(x)
    case None => Null
  }

  // ---- the usage signal ----

  function NormaliseReading(fields: map<Key, Json>): Json {
    Object(map[
      Utilization := OptionalFloat(Fraction(Get(fields, Utilization))),
      ResetsAt := if ResetsAt in fields then fields[ResetsAt] else Get(fields, ResetsAtCli)])
  }

  function ObservedAt(usage: map<Key, Json>, now: Text): Text {
    if Truthy(Get(usage, ObservedAtKey)) then StrOf(usage[ObservedAtKey]) else now
  }

  // One field of the normalised usage: the two windows in one shape, `observed_at` as text or
  // not at all, and whatever else came as it came.
  function NormalisedField(usage: map<Key, Json>, now: Text, key: Key): Option<Json> {
    if key == FiveHour || key == SevenDay then
      if Get(usage, key).Object? then Some(NormaliseReading(usage[key].fields)) else None
    else if key == ObservedAtKey then
      if ObservedAt(usage, now) == Plain("") then None else Some(Str(ObservedAt(usage, now)))
    else if key in usage then Some(usage[key])
    else None
  }

  // `_normalise_usage`
  function NormaliseUsage(usage: map<Key, Json>, now: Text): map<Key, Json> {
    map key | key in usage.Keys + {ObservedAtKey} && NormalisedField(usage, now, key).Some? ::
      NormalisedField(usage, now, key).value
  }

  lemma NormalisedFieldAgain(usage: map<Key, Json>, now: Text, later: Text, key: Key)
    ensures var once := NormaliseUsage(usage, now);
            NormalisedField(once, if ObservedAtKey in once then later else Plain(""), key)
            == if key in once then Some(once[key]) else None
  {
    NormalisedGet(usage, now, key);
    NormalisedGet(usage, now, ObservedAtKey);
    hide NormaliseUsage;
    var once := NormaliseUsage(usage, now);
    if key == FiveHour || key == SevenDay {
      if key in once { ReadingAgain(usage[key].fields); }
    } else if key == ObservedAtKey {
      assert Get(once, key) == if ObservedAt(usage, now) == Plain("") then Null else Str(ObservedAt(usage, now));
    }
  }

  lemma NormalisedGet(usage: map<Key, Json>, now: Text, key: Key)
    ensures var once := NormaliseUsage(usage, now);
            && (key in once <==> NormalisedField(usage, now, key).Some?)
            && (key in once ==> once[key] == NormalisedField(usage, now, key).value)
  {}

  lemma ReadingAgain(fields: map<Key, Json>)
    ensures NormaliseReading(NormaliseReading(fields).fields) == NormaliseReading(fields)
  {}

  // Normalising what was normalised changes nothing, whatever time it is given.
  lemma NormaliseUsageIdempotent(usage: map<Key, Json>, now: Text, later: Text)
    ensures var once := NormaliseUsage(usage, now);
            NormaliseUsage(once, if ObservedAtKey in once then later else Plain("")) == once
  {
    hide NormaliseUsage, NormalisedField;
    var once := NormaliseUsage(usage, now);
    var again := if ObservedAtKey in once then later else Plain("");
    var twice := NormaliseUsage(once, again);
    forall k ensures k in twice <==> k in once
             ensures k in twice ==> twice[k] == once[k] {
      NormalisedFieldAgain(usage, now, later, k);
      NormalisedGet(once, again, k);
    }
    assert twice.Keys == once.Keys;
  }

  ghost predicate UsageSettled(usage: Json) {
    usage == Null || (usage.Object? && usage.fields != map[] && NormaliseUsage(usage.fields, Plain("")) == usage.fields)
  }

  lemma ObservedUsageSettles(usage: map<Key, Json>, now: int)
    ensures UsageSettled(Object(NormaliseUsage(usage, Iso(now))))
  {
    NormaliseUsageIdempotent(usage, Iso(now), Plain(""));
    assert ObservedAt(usage, Iso(now)) != Plain("");
    assert ObservedAtKey in NormaliseUsage(usage, Iso(now));
  }

  // `window_has_reset`
  predicate WindowHasReset(reading: map<Key, Json>, now: int) {
    match InstantOf(Get(reading, ResetsAt))
    case Some(boundary) => now >= boundary
    case None => false
  }

  // ---- the window ----

  datatype Halt = Halt(actor: Text, reason: Text, at: Text)
  datatype Carry = Carry(issue: int, since: Text, reason: Text)
  datatype Block = Block(actor: Text, at: int, sessions: int, until: int, anchor: Text, reason: Text)
  datatype Owed = Owed(items: seq<int>, since: int, until: int)
  datatype Quiet = Quiet(at: Text, quiet: bool, reason: Text)

  datatype Window = Window(
    periodStart: Text,
    calls: int,
    rateLimitedUntil: Option<Text>,
    usage: Json,
    halt: Option<Halt>,
    carry: Option<Carry>,
    block: Option<Block>,
    owed: Option<Owed>,
    planning: Option<Owed>,
    quiet: Option<Quiet>)
  {
    // `rate_limited`
    predicate RateLimited(now: int) {
      rateLimitedUntil.Some? && rateLimitedUntil.value.Iso? && now < rateLimitedUntil.value.instant
    }

    function UsageWindow(name: Key): Option<map<Key, Json>> {
      if usage.Object? && Get(usage.fields, name).Object? then Some(usage.fields[name].fields) else None
    }

    // The stored observation was made before this window began.
    predicate UsagePredates() {
      usage.Object? && periodStart.Iso? &&
      match InstantOf(Get(usage.fields, ObservedAtKey))
      case Some(at) => at < periodStart.instant
      case None => false
    }

    // `session_utilization`, with `now` None for the reading as observed.
    function SessionUtilization(now: Option<int>): Option<real> {
      match UsageWindow(FiveHour)
      case None => None
      case Some(reading) =>
        if UsagePredates() then None
        else if now.Some? && WindowHasReset(reading, now.value) then None
        else Fraction(Get(reading, Utilization))
    }

    // `_observed_reset` and `_observed_five_hour_reset`
    function ObservedReset(name: Key): Option<Text> {
      match UsageWindow(name)
      case None => None
      case Some(reading) =>
        if Truthy(Get(reading, ResetsAt)) then Some(StrOf(Get(reading, ResetsAt))) else None
    }

    // `block_open`
    predicate BlockOpen(now: int) {
      block.Some? && now < block.value.until
    }

    // `owed_items`
    function OwedItems(now: int): set<int> {
      OwedAt(owed, now)
    }
  }

  function EmptyWindow(periodStart: Text): Window {
    Window(periodStart, 0, None, Null, None, None, None, None, None, None)
  }

  // `block_until`: the running session and whole ones after it, never past `sessions` from now.
  function BlockUntil(sessions: int, now: int, reset: Option<Text>): (until: int)
    ensures now < until <= now + 18000 * Max(1, sessions)
  {
    var count := Max(1, sessions);
    var cap := now + SESSION * count;
    if reset.Some? && reset.value.Iso? && reset.value.instant > now
    then Min(reset.value.instant + SESSION * (count - 1), cap)
    else cap
  }

  // A block of n sessions leaves more than n - 1 whole ones and no more than n, and when the
  // running session's reset is no more than one away it ends with a session.
  lemma BlockCoversItsSessions(sessions: int, now: int, reset: Option<Text>)
    ensures var until := BlockUntil(sessions, now, reset);
            now + 18000 * (Max(1, sessions) - 1) < until <= now + 18000 * Max(1, sessions)
    ensures reset.Some? && reset.value.Iso? && now < reset.value.instant <= now + 18000 ==>
              (BlockUntil(sessions, now, reset) - reset.value.instant) % 18000 == 0
  {
    var count := Max(1, sessions);
    if reset.Some? && reset.value.Iso? && now < reset.value.instant <= now + SESSION {
      var whole := SESSION * (count - 1);
      assert BlockUntil(sessions, now, reset) == reset.value.instant + whole;
      ModOf(whole, SESSION, count - 1, 0);
    }
  }

  // ---- records of owed items ----

  // `sorted(set)`
  function SortedSet(s: set<int>): (r: seq<int>)
    ensures Elements(r) == s
    ensures Ascending(r)
    decreases |s|
  {
    if s == {} then [] else
      var m := Least(s);
      var rest := SortedSet(s - {m});
      LeastFirst(m, rest, s);
      [m] + rest
  }

  lemma LeastFirst(m: int, rest: seq<int>, s: set<int>)
    requires m in s && (forall x :: x in s ==> m <= x) && Elements(rest) == s - {m} && Ascending(rest)
    ensures Elements([m] + rest) == s && Ascending([m] + rest)
  {
    assert forall k :: 0 <= k < |rest| ==> rest[k] in Elements(rest);
    assert Elements([m] + rest) == {m} + Elements(rest);
  }

  ghost predicate Ascending(r: seq<int>) {
    forall i, j :: 0 <= i < j < |r| ==> r[i] < r[j]
  }

  ghost predicate IsLeast(s: set<int>, m: int) {
    m in s && forall x :: x in s ==> m <= x
  }

  lemma SomeLeast(s: set<int>)
    requires s != {}
    ensures exists m :: m in s && forall x :: x in s ==> m <= x
  {
    var m := LeastExists(s);
    assert IsLeast(s, m);
  }

  function Least(s: set<int>): (m: int)
    requires s != {}
    ensures m in s && forall x :: x in s ==> m <= x
  {
    SomeLeast(s);
    var m :| m in s && forall x :: x in s ==> m <= x;
    m
  }

  lemma AnElement(s: set<int>) returns (x: int)
    requires s != {}
    ensures x in s
  {
    assert (forall y :: y !in s) ==> s == {};
    x :| x in s;
  }

  lemma {:induction false} LeastExists(s: set<int>) returns (m: int)
    requires s != {}
    ensures IsLeast(s, m)
    decreases |s|
  {
    hide IsLeast;
    var x := AnElement(s);
    if s == {x} {
      m := x;
      OnlyIsLeast(x);
    } else {
      m := LeastExists(s - {x});
      LesserIsLeast(s, x, m);
      m := Min(x, m);
    }
  }

  lemma OnlyIsLeast(x: int)
    ensures IsLeast({x}, x)
  {}

  lemma LesserIsLeast(s: set<int>, x: int, m: int)
    requires x in s && IsLeast(s - {x}, m)
    ensures IsLeast(s, Min(x, m))
  {
    forall y | y in s ensures Min(x, m) <= y {
      if y != x { assert y in s - {x}; }
    }
  }

  // What `owe` leaves. The later of the two ends decides: the items join a record of their own
  // end, replace one of a sooner end, and leave one of a later end alone.
  function OweRecord(current: Option<Owed>, items: set<int>, since: int, until: int): Option<Owed> {
    if items == {} then current
    else if current.Some? && current.value.until > until then current
    else if current.Some? && current.value.until == until then
      Some(Owed(SortedSet(items + Elements(current.value.items)), current.value.since, until))
    else Some(Owed(SortedSet(items), since, until))
  }

  // What `owe_planning` leaves: the items join a record that still runs, between the ends it had.
  function OwePlanningRecord(current: Option<Owed>, items: set<int>, since: int, until: int): (r: Option<Owed>)
    ensures ItemsOwed(r) == if current.Some? && since < current.value.until then ItemsOwed(current) + items
                            else if items == {} then ItemsOwed(current) else items
    ensures RecordSettled(current) ==> RecordSettled(r)
  {
    if items == {} then current
    else if current.Some? && since < current.value.until then
      Some(Owed(SortedSet(items + Elements(current.value.items)), current.value.since, current.value.until))
    else Some(Owed(SortedSet(items), since, until))
  }

  // What `keep_owed` and `keep_planning` leave: the items in both, between the same two ends, and
  // no record once there is none.
  function KeepRecord(current: Option<Owed>, still: set<int>): (r: Option<Owed>)
    ensures ItemsOwed(r) == ItemsOwed(current) * still
    ensures r.Some? <==> ItemsOwed(current) * still != {}
    ensures r.Some? ==> current.Some? && r.value.since == current.value.since && r.value.until == current.value.until
    ensures RecordSettled(r)
  {
    match current
    case None => None
    case Some(record) =>
      var keep := Elements(record.items) * still;
      if keep == {} then None else Some(record.(items := SortedSet(keep)))
  }

  // The items a record names, whenever it runs: `planning_items`.
  function ItemsOwed(record: Option<Owed>): set<int> {
    match record
    case Some(owed) => Elements(owed.items)
    case None => {}
  }

  // The items of a record that runs at `now`.
  function OwedAt(record: Option<Owed>, now: int): set<int> {
    if record.Some? && record.value.since <= now < record.value.until then Elements(record.value.items) else {}
  }

  ghost predicate RecordSettled(record: Option<Owed>) {
    record.Some? ==> record.value.items != [] && Ascending(record.value.items)
  }

  // ---- the cursors ----

  // Where a held comment is to be read again; `since` is None for "".
  datatype Held = Held(repo: string, surface: string, number: int, commentId: string, since: Option<int>)

  datatype Cursors = Cursors(
    lastSeen: Option<int>,
    seenIds: seq<string>,
    denied: map<string, int>,
    forced: seq<int>,
    asks: Option<Asks>,
    prunedAt: Option<Text>,
    retry: seq<Held>)

  // The day's questions, counted for one date.
  datatype Asks = Asks(date: string, count: int)

  const EmptyCursors := Cursors(None, [], map[], [], None, None, [])

  function HeldIds(held: seq<Held>): set<string> {
    set h | h in held :: h.commentId
  }

  predicate EarlierOrSame(a: Held, b: Held) {
    a.since.None? || (b.since.Some? && a.since.value <= b.since.value)
  }

  // `retry_threads`: a stable sort, earliest comment first.
  function InsertHeld(h: Held, sorted: seq<Held>): seq<Held> {
    if sorted == [] || EarlierOrSame(h, sorted[0]) then [h] + sorted
    else [sorted[0]] + InsertHeld(h, sorted[1..])
  }

  function RetryThreads(retry: seq<Held>): seq<Held> {
    if retry == [] then [] else InsertHeld(retry[0], RetryThreads(retry[1..]))
  }

  ghost predicate EarliestFirst(held: seq<Held>) {
    forall i, j :: 0 <= i < j < |held| ==> EarlierOrSame(held[i], held[j])
  }

  lemma {:induction false} InsertHeldSorts(h: Held, sorted: seq<Held>)
    requires EarliestFirst(sorted)
    ensures EarliestFirst(InsertHeld(h, sorted))
    ensures multiset(InsertHeld(h, sorted)) == multiset([h]) + multiset(sorted)
  {
    hide EarlierOrSame, EarliestFirst;
    if sorted == [] || EarlierOrSame(h, sorted[0]) {
      GoesFirst(h, sorted);
    } else {
      InsertHeldSorts(h, sorted[1..]) by { TailIsEarliestFirst(sorted); }
      var rest := InsertHeld(h, sorted[1..]);
      assert sorted == [sorted[0]] + sorted[1..];
      StaysFirst(h, sorted, rest);
    }
  }

  lemma TailIsEarliestFirst(sorted: seq<Held>)
    requires sorted != [] && EarliestFirst(sorted)
    ensures EarliestFirst(sorted[1..])
  {}

  lemma GoesFirst(h: Held, sorted: seq<Held>)
    requires EarliestFirst(sorted) && (sorted != [] ==> EarlierOrSame(h, sorted[0]))
    ensures EarliestFirst([h] + sorted)
  {}

  // The first of the sorted entries still comes first when a later one joins the rest.
  lemma StaysFirst(h: Held, sorted: seq<Held>, rest: seq<Held>)
    requires sorted != [] && EarliestFirst(sorted) && !EarlierOrSame(h, sorted[0])
    requires EarliestFirst(rest) && multiset(rest) == multiset([h]) + multiset(sorted[1..])
    ensures EarliestFirst([sorted[0]] + rest)
  {
    forall k | 0 <= k < |rest| ensures EarlierOrSame(sorted[0], rest[k]) {
      assert rest[k] in multiset(rest);
      assert rest[k] == h || rest[k] in sorted[1..];
    }
  }

  // The held comments come back earliest first, each exactly as often as it is held.
  lemma {:induction false} RetryThreadsSorted(retry: seq<Held>)
    ensures EarliestFirst(RetryThreads(retry))
    ensures multiset(RetryThreads(retry)) == multiset(retry)
    ensures |RetryThreads(retry)| == |retry|
  {
    if retry != [] {
      RetryThreadsSorted(retry[1..]);
      InsertHeldSorts(retry[0], RetryThreads(retry[1..]));
      assert retry == [retry[0]] + retry[1..];
    }
    assert |multiset(RetryThreads(retry))| == |RetryThreads(retry)|;
    assert |multiset(retry)| == |retry|;
  }

  // Sorting what is sorted changes nothing, so a save of what was saved keeps the order.
  lemma {:induction false} RetryThreadsIdempotent(held: seq<Held>)
    requires EarliestFirst(held)
    ensures RetryThreads(held) == held
  {
    if held != [] {
      RetryThreadsIdempotent(held[1..]);
      assert held == [held[0]] + held[1..];
    }
  }

  // `release_retry_threads`
  function NotReleased(held: seq<Held>, gone: set<string>): seq<Held> {
    if held == [] then []
    else (if held[0].commentId in gone then [] else [held[0]]) + NotReleased(held[1..], gone)
  }

  // No comment is held twice.
  ghost predicate HeldOnce(held: seq<Held>) {
    held == [] || (held[0].commentId !in HeldIds(held[1..]) && HeldOnce(held[1..]))
  }

  lemma HeldIdsSplit(held: seq<Held>)
    requires held != []
    ensures HeldIds(held) == {held[0].commentId} + HeldIds(held[1..])
  {
    assert held == [held[0]] + held[1..];
  }

  lemma {:induction false} NotReleasedHolds(held: seq<Held>, gone: set<string>)
    ensures HeldIds(NotReleased(held, gone)) == HeldIds(held) - gone
    ensures HeldOnce(held) ==> HeldOnce(NotReleased(held, gone))
  {
    if held != [] {
      NotReleasedHolds(held[1..], gone);
      HeldIdsSplit(held);
      if held[0].commentId in gone {
        assert NotReleased(held, gone) == NotReleased(held[1..], gone);
      } else {
        HeldIdsSplit(NotReleased(held, gone));
      }
    }
  }

  lemma {:induction false} InsertHeldIds(h: Held, sorted: seq<Held>)
    ensures HeldIds(InsertHeld(h, sorted)) == {h.commentId} + HeldIds(sorted)
    ensures HeldOnce(sorted) && h.commentId !in HeldIds(sorted) ==> HeldOnce(InsertHeld(h, sorted))
  {
    HeldIdsSplit(InsertHeld(h, sorted));
    if sorted != [] {
      HeldIdsSplit(sorted);
      if !EarlierOrSame(h, sorted[0]) {
        InsertHeldIds(h, sorted[1..]);
      }
    }
  }

  lemma {:induction false} RetryKeepsIds(retry: seq<Held>)
    ensures HeldIds(RetryThreads(retry)) == HeldIds(retry)
    ensures HeldOnce(retry) ==> HeldOnce(RetryThreads(retry))
  {
    if retry != [] {
      HeldIdsSplit(retry);
      RetryKeepsIds(retry[1..]);
      InsertHeldIds(retry[0], RetryThreads(retry[1..]));
    }
  }

  function Holding(retry: seq<Held>, h: Held): seq<Held> {
    if h.commentId in HeldIds(retry) then retry else retry + [h]
  }

  lemma {:induction false} HoldingIds(retry: seq<Held>, h: Held)
    ensures HeldIds(Holding(retry, h)) == HeldIds(retry) + {h.commentId}
    ensures HeldOnce(retry) ==> HeldOnce(Holding(retry, h))
  {
    if h.commentId !in HeldIds(retry) && retry != [] {
      HeldIdsSplit(retry);
      HeldIdsSplit(retry + [h]);
      assert (retry + [h])[1..] == retry[1..] + [h];
      HoldingIds(retry[1..], h);
    }
  }

  datatype Entry = Entry(ts: Text, stage: Text, issue: int, run: Text)

  function LastOf<T>(s: seq<T>, cap: nat): seq<T> {
    if |s| <= cap then s else s[|s| - cap..]
  }

  // ---- the object ----

  class Ledger {
    var window: Window
    var cursors: Cursors
    var history: seq<Entry>

    // What every method keeps, and so what every ledger reached through them satisfies.
    ghost predicate Valid()
      reads this
    {
      && UsageSettled(window.usage)
      && RecordSettled(window.owed)
      && RecordSettled(window.planning)
      && (window.block.Some? ==>
            var b := window.block.value;
            b.at < b.until <= b.at + SESSION * Max(1, b.sessions))
      && Distinct(cursors.seenIds)
      && Distinct(cursors.forced)
      && HeldOnce(cursors.retry)
      && |history| <= HISTORY_CAP
    }

    constructor Empty(periodStart: Text)
      ensures Valid()
      ensures window == Window(periodStart, 0, None, Null, None, None, None, None, None, None)
      ensures window == EmptyWindow(periodStart) && cursors == EmptyCursors && history == []
    {
      window := EmptyWindow(periodStart);
      cursors := EmptyCursors;
      history := [];
    }

    // The object `from_json` makes of what a file holds.
    constructor Loaded(w: Window, c: Cursors, h: seq<Entry>)
      ensures window == w && cursors == c && history == h
    {
      window := w;
      cursors := c;
      history := h;
    }

    method Record(ts: Text, stage: Text, issue: int, run: Text)
      requires Valid()
      modifies this
      ensures Valid()
      ensures var all := old(history) + [Entry(ts, stage, issue, run)];
              history == if |all| <= 500 then all else all[|all| - 500..]
      ensures window == old(window).(calls := old(window.calls) + 1) && cursors == old(cursors)
    {
      history := history + [Entry(ts, stage, issue, run)];
      window := window.(calls := window.calls + 1);
      if |history| > HISTORY_CAP {
        history := history[|history| - HISTORY_CAP..];
      }
    }

    method SetRateLimited(until: Option<Text>)
      requires Valid()
      modifies this`window
      ensures Valid()
      ensures window == old(window).(rateLimitedUntil := until)
    {
      window := window.(rateLimitedUntil := until);
    }

    // `observe_usage`: keeps the last real observation, and restarts the window at the old
    // seven-day reset once a new one is reported at or past it.
    method ObserveUsage(usage: Json, now: int)
      requires Valid()
      modifies this`window
      ensures Valid()
      ensures window == Observed(old(window), usage, now)
    {
      if !usage.Object? || usage.fields == map[] {
        return;
      }
      hide NormaliseUsage, UsageSettled, RecordSettled, Distinct, HeldOnce, Window.ObservedReset;
      var previous := window.ObservedReset(SevenDay);
      var stored := NormaliseUsage(usage.fields, Iso(now));
      ObservedUsageSettles(usage.fields, now);
      window := window.(usage := Object(stored));
      var current := window.ObservedReset(SevenDay);
      if previous.None? || current.None? || current == previous {
        return;
      }
      if !previous.value.Iso? || now < previous.value.instant {
        return;
      }
      window := window.(periodStart := previous.value, calls := 0);
    }

    method SetCarry(issue: int, since: Text, reason: Text)
      requires Valid()
      modifies this`window
      ensures Valid()
      ensures window == old(window).(carry := Some(Carry(issue, since, reason)))
    {
      window := window.(carry := Some(Carry(issue, since, reason)));
    }

    method ClearCarry()
      requires Valid()
      modifies this`window
      ensures Valid()
      ensures window == old(window).(carry := None)
    {
      window := window.(carry := None);
    }

    method RequestHalt(actor: Text, reason: Text, at: Text)
      requires Valid()
      modifies this`window
      ensures Valid()
      ensures window == old(window).(halt := Some(Halt(actor, StrippedText(reason), at)))
    {
      window := window.(halt := Some(Halt(actor, StrippedText(reason), at)));
    }

    method ClearHalt()
      requires Valid()
      modifies this`window
      ensures Valid()
      ensures window == old(window).(halt := None)
    {
      window := window.(halt := None);
    }

    // `request_block`: the only place a block's end comes from.
    method RequestBlock(actor: Text, sessions: int, now: int, reason: Text) returns (grant: Block)
      requires Valid()
      modifies this`window
      ensures Valid()
      ensures window == old(window).(block := Some(grant))
      ensures grant.at == now && grant.sessions == sessions && grant.actor == actor
                && grant.reason == StrippedText(reason)
      ensures grant.until == BlockUntil(sessions, now, old(window).ObservedReset(FiveHour))
    {
      var anchor := window.ObservedReset(FiveHour);
      grant := Block(actor, now, sessions, BlockUntil(sessions, now, anchor),
                     if anchor.Some? then anchor.value else Plain(""), StrippedText(reason));
      window := window.(block := Some(grant));
    }

    method ClearBlock()
      requires Valid()
      modifies this`window
      ensures Valid()
      ensures window == old(window).(block := None)
    {
      window := window.(block := None);
    }

    method Owe(items: set<int>, since: int, until: int)
      requires Valid()
      modifies this`window
      ensures Valid()
      ensures window == old(window).(owed := OweRecord(old(window).owed, items, since, until))
    {
      if items == {} {
        return;
      }
      var numbers, start := items, since;
      if window.owed.Some? {
        if window.owed.value.until > until {
          return;
        }
        if window.owed.value.until == until {
          numbers := numbers + Elements(window.owed.value.items);
          start := window.owed.value.since;
        }
      }
      assert numbers != {} && SortedSet(numbers) != [];
      window := window.(owed := Some(Owed(SortedSet(numbers), start, until)));
    }

    method KeepOwed(still: set<int>)
      requires Valid()
      modifies this`window
      ensures Valid()
      ensures window == old(window).(owed := KeepRecord(old(window).owed, still))
      ensures ItemsOwed(window.owed) == ItemsOwed(old(window).owed) * still
    {
      window := window.(owed := KeepRecord(window.owed, still));
    }

    method OwePlanning(items: set<int>, since: int, until: int)
      requires Valid()
      modifies this`window
      ensures Valid()
      ensures window == old(window).(planning := OwePlanningRecord(old(window).planning, items, since, until))
    {
      window := window.(planning := OwePlanningRecord(window.planning, items, since, until));
    }

    method KeepPlanning(still: set<int>)
      requires Valid()
      modifies this`window
      ensures Valid()
      ensures window == old(window).(planning := KeepRecord(old(window).planning, still))
    {
      window := window.(planning := KeepRecord(window.planning, still));
    }

    method Force(item: int)
      requires Valid()
      modifies this`cursors
      ensures Valid()
      ensures cursors == old(cursors).(forced := if item in old(cursors).forced then old(cursors).forced
                else old(cursors).forced + [item])
    {
      if item !in cursors.forced {
        cursors := cursors.(forced := cursors.forced + [item]);
      }
    }

    method RecordQuiet(at: Text, quiet: bool, reason: Text)
      requires Valid()
      modifies this`window
      ensures Valid()
      ensures window == old(window).(quiet := Some(Quiet(at, quiet, reason)))
    {
      window := window.(quiet := Some(Quiet(at, quiet, reason)));
    }

    method MarkSeen(id: string)
      requires Valid()
      modifies this`cursors
      ensures Valid()
      ensures cursors == old(cursors).(seenIds := if id in old(cursors).seenIds then old(cursors).seenIds
                else old(cursors).seenIds + [id])
    {
      if id !in cursors.seenIds {
        cursors := cursors.(seenIds := cursors.seenIds + [id]);
      }
    }

    method Unsee(id: string)
      requires Valid()
      modifies this`cursors
      ensures Valid()
      ensures cursors == old(cursors).(seenIds := Without(old(cursors).seenIds, id))
    {
      WithoutElements(cursors.seenIds, id);
      if id in cursors.seenIds {
        cursors := cursors.(seenIds := Without(cursors.seenIds, id));
      } else {
        WithoutAbsent(cursors.seenIds, id);
      }
    }

    // `hold_for_retry`: a comment is held at most once.
    method HoldForRetry(h: Held)
      requires Valid()
      modifies this`cursors
      ensures Valid()
      ensures cursors == old(cursors).(retry := Holding(old(cursors).retry, h))
    {
      HoldingIds(cursors.retry, h);
      if h.commentId !in HeldIds(cursors.retry) {
        cursors := cursors.(retry := cursors.retry + [h]);
      }
    }

    method ReleaseRetryThreads(released: seq<Held>)
      requires Valid()
      modifies this`cursors
      ensures Valid()
      ensures cursors == old(cursors).(retry := NotReleased(RetryThreads(old(cursors).retry), HeldIds(released)))
    {
      RetryKeepsIds(cursors.retry);
      NotReleasedHolds(RetryThreads(cursors.retry), HeldIds(released));
      cursors := cursors.(retry := NotReleased(RetryThreads(cursors.retry), HeldIds(released)));
    }

    method CountDenied(handle: string)
      requires Valid()
      modifies this`cursors
      ensures Valid()
      ensures cursors == old(cursors).(denied := Bump(old(cursors).denied, handle))
    {
      var count := if handle in cursors.denied then cursors.denied[handle] else 0;
      cursors := cursors.(denied := cursors.denied[handle := count + 1]);
    }

    // The counting of harness/stages/ask.py: a new day begins again.
    method CountAsk(today: string)
      requires Valid()
      modifies this`cursors
      ensures Valid()
      ensures cursors == old(cursors).(asks := Some(Asks(today, AskedOn(old(cursors).asks, today) + 1)))
    {
      cursors := cursors.(asks := Some(Asks(today, AskedOn(cursors.asks, today) + 1)));
    }

    method MarkPruned(at: Text)
      requires Valid()
      modifies this`cursors
      ensures Valid()
      ensures cursors == old(cursors).(prunedAt := Some(at))
    {
      cursors := cursors.(prunedAt := Some(at));
    }

    // `unforce`: the exemption is spent once.
    method Unforce(item: int)
      requires Valid()
      modifies this`cursors
      ensures Valid()
      ensures cursors == old(cursors).(forced := Without(old(cursors).forced, item))
    {
      WithoutElements(cursors.forced, item);
      if item in cursors.forced {
        cursors := cursors.(forced := Without(cursors.forced, item));
      } else {
        WithoutAbsent(cursors.forced, item);
      }
    }

    method AdvanceFeed(now: int)
      requires Valid()
      modifies this`cursors
      ensures Valid()
      ensures cursors == old(cursors).(lastSeen := Some(now))
    {
      cursors := cursors.(lastSeen := Some(now));
    }
  }

  // `_used_today`
  function AskedOn(asks: Option<Asks>, today: string): int {
    if asks.Some? && asks.value.date == today then asks.value.count else 0
  }

  // One more refusal of a handle.
  function Bump(denied: map<string, int>, handle: string): map<string, int> {
    denied[handle := (if handle in denied then denied[handle] else 0) + 1]
  }

  // What `observe_usage` leaves of the window.
  function Observed(w: Window, usage: Json, now: int): Window {
    if !usage.Object? || usage.fields == map[] then w
    else
      var previous := w.ObservedReset(SevenDay);
      var stored := w.(usage := Object(NormaliseUsage(usage.fields, Iso(now))));
      var current := stored.ObservedReset(SevenDay);
      if previous.Some? && current.Some? && current != previous && previous.value.Iso? && previous.value.instant <= now
      then stored.(periodStart := previous.value, calls := 0)
      else stored
  }

  // An observation moves nothing of the window but the usage, unless a new seven-day reset is
  // reported at or past the old one: then the window begins again at that reset, already past.
  lemma ObservationKeepsTheRest(w: Window, usage: Json, now: int)
    ensures var o := Observed(w, usage, now);
            && o == w.(usage := o.usage, periodStart := o.periodStart, calls := o.calls)
            && (o.periodStart != w.periodStart ==> o.periodStart.Iso? && o.periodStart.instant <= now && o.calls == 0)
            && (o.calls != w.calls ==>
                  && Some(o.periodStart) == w.ObservedReset(SevenDay)
                  && o.ObservedReset(SevenDay) != w.ObservedReset(SevenDay))
            && (o.usage != w.usage ==> usage.Object? && usage.fields != map[])
  {}

  // A stored block is moved by no later observation, whatever session it reports.
  lemma BlockOutlivesObservations(w: Window, usage: Json, now: int, at: int)
    ensures Observed(w, usage, now).block == w.block
    ensures Observed(w, usage, now).BlockOpen(at) == w.BlockOpen(at)
  {}
}
