// The ledger's file, harness/ledger.py: what `to_json` writes and `from_json` reads back.
module Persistence {
  import opened Prelude
  import opened RunWindow
  import opened Ledgers

  const SCHEMA := 1
  // 1 January 1970 was a Thursday.
  const EPOCH := Iso(3 * DAY)

  // Everything a ledger holds.
  datatype State = State(window: Window, cursors: Cursors, history: seq<Entry>)

  // `pruned_at`
  function Pruned(c: Cursors): Option<Text> {
    if c.prunedAt == Some(Plain("")) then None else c.prunedAt
  }

  // ---- fields ----

  // A string kept as it is: an identifier, a repository, a handle.
  function Words(words: string): Json {
    Str(Plain(words))
  }

  function WordsOf(value: Json): string {
    match value
    case Str(Plain(words)) => words
    case _ => ""
  }

  function TextField(fields: map<Key, Json>, key: Key): Text {
    if key in fields then StrOf(fields[key]) else Plain("")
  }

  function IntOf(value: Json): int {
    match value
    case Int(n) => n
    case _ => 0
  }

  function IntJson(n: int): Json {
    Int(n)
  }

  function FieldsOf(value: Json): map<Key, Json> {
    match value
    case Object(fields) => fields
    case _ => map[]
  }

  function ItemsOf(value: Json): seq<Json> {
    match value
    case List(items) => items
    case _ => []
  }

  function OptionalText(text: Option<Text>): Json {
    match text
    case Some(t) => Str(t)
    case None => Null
  }

  function OptionalTextOf(value: Json): Option<Text> {
    if value == Null then None else Some(StrOf(value))
  }

  // ---- the records ----

  function HaltFields(h: Halt): map<Key, Json> {
    map[ActorKey := Str(h.actor), ReasonKey := Str(h.reason), AtKey := Str(h.at)]
  }

  function HaltOf(value: Json): Option<Halt> {
    var f := FieldsOf(value);
    if f == map[] then None else Some(Halt(TextField(f, ActorKey), TextField(f, ReasonKey), TextField(f, AtKey)))
  }

  function CarryFields(c: Carry): map<Key, Json> {
    map[IssueKey := Int(c.issue), SinceKey := Str(c.since), ReasonKey := Str(c.reason)]
  }

  function CarryOf(value: Json): Option<Carry> {
    var f := FieldsOf(value);
    if f == map[] then None else Some(Carry(IntOf(Get(f, IssueKey)), TextField(f, SinceKey), TextField(f, ReasonKey)))
  }

  function BlockFields(b: Block): map<Key, Json> {
    map[ActorKey := Str(b.actor), AtKey := Str(Iso(b.at)), SessionsKey := Int(b.sessions),
        UntilKey := Str(Iso(b.until)),
        AnchorKey := Str(b.anchor), ReasonKey := Str(b.reason)]
  }

  // A grant whose ends do not read is no grant.
  function BlockOf(value: Json): Option<Block> {
    var f := FieldsOf(value);
    match (InstantOf(Get(f, AtKey)), InstantOf(Get(f, UntilKey)))
    case (Some(at), Some(until)) =>
      Some(Block(TextField(f, ActorKey), at, IntOf(Get(f, SessionsKey)), until, TextField(f, AnchorKey),
          TextField(f, ReasonKey)))
    case _ => None
  }

  function OwedFields(o: Owed): map<Key, Json> {
    map[ItemsKey := List(Mapped(IntJson, o.items)), SinceKey := Str(Iso(o.since)), UntilKey := Str(Iso(o.until))]
  }

  // A record whose ends do not read owes nothing.
  function OwedOf(value: Json): Option<Owed> {
    var f := FieldsOf(value);
    match (InstantOf(Get(f, SinceKey)), InstantOf(Get(f, UntilKey)))
    case (Some(since), Some(until)) => Some(Owed(Mapped(IntOf, ItemsOf(Get(f, ItemsKey))), since, until))
    case _ => None
  }

  function QuietFields(q: Quiet): map<Key, Json> {
    map[AtKey := Str(q.at), QuietFlag := Bool(q.quiet), ReasonKey := Str(q.reason)]
  }

  function QuietOf(value: Json): Option<Quiet> {
    var f := FieldsOf(value);
    if f == map[] then None else Some(Quiet(TextField(f, AtKey), Truthy(Get(f, QuietFlag)), TextField(f, ReasonKey)))
  }

  function AsksJson(a: Asks): Json {
    Object(map[DateKey := Words(a.date), CountKey := Int(a.count)])
  }

  function AsksOf(value: Json): Option<Asks> {
    var f := FieldsOf(value);
    if f == map[] then None else Some(Asks(WordsOf(Get(f, DateKey)), IntOf(Get(f, CountKey))))
  }

  function HeldFields(h: Held): map<Key, Json> {
    map[RepoKey := Words(h.repo), SurfaceKey := Words(h.surface), NumberKey := Int(h.number),
        CommentIdKey := Words(h.commentId),
        SinceKey := Str(match h.since case Some(t) => Iso(t) case None => Plain(""))]
  }

  function HeldJson(h: Held): Json {
    Object(HeldFields(h))
  }

  function HeldOf(value: Json): Held {
    var f := FieldsOf(value);
    Held(WordsOf(Get(f, RepoKey)), WordsOf(Get(f, SurfaceKey)), IntOf(Get(f, NumberKey)), WordsOf(Get(f, CommentIdKey)),
         InstantOf(Get(f, SinceKey)))
  }

  function EntryFields(e: Entry): map<Key, Json> {
    map[TsKey := Str(e.ts), StageKey := Str(e.stage), IssueKey := Int(e.issue), RunKey := Str(e.run)]
  }

  function EntryJson(e: Entry): Json {
    Object(EntryFields(e))
  }

  function EntryOf(value: Json): Entry {
    var f := FieldsOf(value);
    Entry(TextField(f, TsKey), TextField(f, StageKey), IntOf(Get(f, IssueKey)), TextField(f, RunKey))
  }

  function HistoryJson(history: seq<Entry>): Json {
    List(Mapped(EntryJson, history))
  }

  function HistoryOf(value: Json): seq<Entry> {
    Mapped(EntryOf, ItemsOf(value))
  }

  function DeniedJson(denied: map<string, int>): Json {
    Named(map handle | handle in denied :: Int(denied[handle]))
  }

  function DeniedOf(value: Json): map<string, int> {
    match value
    case Named(entries) => map handle | handle in entries :: IntOf(entries[handle])
    case _ => map[]
  }

  lemma OwedReadsBack(o: Owed)
    ensures OwedOf(Object(OwedFields(o))) == Some(o)
  {
    MappedBack(IntJson, IntOf, o.items);
  }

  lemma DeniedReadsBack(denied: map<string, int>)
    ensures DeniedOf(DeniedJson(denied)) == denied
  {}

  // ---- the window ----

  const WINDOW_KEYS := {PeriodStart, Calls, RateLimitedKey, UsageKey, HaltKey, CarryKey, BlockKey, OwedKey,
      PlanningKey, QuietKey}

  // What `to_json` writes under one key of the window, None when it leaves the key out.
  function WindowField(w: Window, key: Key): Option<Json> {
    match key
    case PeriodStart => Some(Str(w.periodStart))
    case Calls => Some(Int(w.calls))
    case RateLimitedKey => Some(OptionalText(w.rateLimitedUntil))
    case UsageKey => if w.usage.Object? && w.usage.fields != map[] then Some(w.usage) else None
    case HaltKey => if w.halt.Some? then Some(Object(HaltFields(w.halt.value))) else None
    case CarryKey => if w.carry.Some? then Some(Object(CarryFields(w.carry.value))) else None
    case BlockKey => if w.block.Some? then Some(Object(BlockFields(w.block.value))) else None
    case OwedKey => if w.owed.Some? then Some(Object(OwedFields(w.owed.value))) else None
    case PlanningKey => if w.planning.Some? then Some(Object(OwedFields(w.planning.value))) else None
    case QuietKey => if w.quiet.Some? then Some(Object(QuietFields(w.quiet.value))) else None
    case _ => None
  }

  function WindowFields(w: Window): map<Key, Json> {
    map key | key in WINDOW_KEYS && WindowField(w, key).Some? :: WindowField(w, key).value
  }

  // Whoever wrote the file, the usage in it is normalised on the way in.
  function UsageOf(value: Json): Json {
    if value.Object? && value.fields != map[] then Object(NormaliseUsage(value.fields, Plain(""))) else value
  }

  function WindowOf(f: map<Key, Json>): Window {
    Window(
      if PeriodStart in f then StrOf(f[PeriodStart]) else EPOCH,
      IntOf(Get(f, Calls)),
      OptionalTextOf(Get(f, RateLimitedKey)),
      UsageOf(Get(f, UsageKey)),
      HaltOf(Get(f, HaltKey)),
      CarryOf(Get(f, CarryKey)),
      BlockOf(Get(f, BlockKey)),
      OwedOf(Get(f, OwedKey)),
      OwedOf(Get(f, PlanningKey)),
      QuietOf(Get(f, QuietKey)))
  }

  // ---- the cursors ----

  const CURSOR_KEYS := {LastSeen, SeenIds, Denied, Forced, AsksKey, PrunedAt, RetryKey}

  function CursorField(c: Cursors, key: Key): Option<Json> {
    match key
    case LastSeen => Some(match c.lastSeen case Some(t) => Str(Iso(t)) case None => Null)
    case SeenIds => Some(List(Mapped(Words, c.seenIds)))
    case Denied => Some(DeniedJson(c.denied))
    case Forced => if c.forced != [] then Some(List(Mapped(IntJson, c.forced))) else None
    case AsksKey => if c.asks.Some? then Some(AsksJson(c.asks.value)) else None
    case PrunedAt => if Pruned(c).Some? then Some(Str(Pruned(c).value)) else None
    case RetryKey => if c.retry != [] then Some(List(Mapped(HeldJson, RetryThreads(c.retry)))) else None
    case _ => None
  }

  function CursorFields(c: Cursors): map<Key, Json> {
    map key | key in CURSOR_KEYS && CursorField(c, key).Some? :: CursorField(c, key).value
  }

  function PrunedOf(f: map<Key, Json>): Option<Text> {
    if Truthy(Get(f, PrunedAt)) then Some(StrOf(Get(f, PrunedAt))) else None
  }

  function CursorsOf(f: map<Key, Json>): Cursors {
    Cursors(
      InstantOf(Get(f, LastSeen)),
      Mapped(WordsOf, ItemsOf(Get(f, SeenIds))),
      DeniedOf(Get(f, Denied)),
      Mapped(IntOf, ItemsOf(Get(f, Forced))),
      AsksOf(Get(f, AsksKey)),
      PrunedOf(f),
      Mapped(HeldOf, ItemsOf(Get(f, RetryKey))))
  }

  // ---- the file ----

  // `to_json`
  function ToJson(s: State): Json {
    Object(map[
      SchemaKey := Int(SCHEMA),
      WindowKey := Object(WindowFields(s.window)),
      CursorsKey := Object(CursorFields(s.cursors)),
      HistoryKey := HistoryJson(s.history)])
  }

  // Python's `==` with the schema's number: a float and `true` equal it too.
  predicate IsSchema(value: Json) {
    value == Int(SCHEMA) || value == Float(1.0) || value == Bool(true)
  }

  // `from_json`: None for the wrong schema.
  function FromJson(value: Json): Option<State> {
    var f := FieldsOf(value);
    if !IsSchema(Get(f, SchemaKey)) then None
    else Some(State(WindowOf(FieldsOf(Get(f, WindowKey))), CursorsOf(FieldsOf(Get(f, CursorsKey))),
                    HistoryOf(Get(f, HistoryKey))))
  }

  // What is written is what there is: the three facts of every window, and each record, once it
  // exists; of the cursors the three of every sweep, and each list, once it holds something.
  lemma WindowKeysWritten(w: Window, key: Key)
    ensures key in WindowFields(w) <==>
              || key in {PeriodStart, Calls, RateLimitedKey}
              || (key == UsageKey && w.usage.Object? && w.usage.fields != map[])
              || (key == HaltKey && w.halt != None) || (key == CarryKey && w.carry != None)
              || (key == BlockKey && w.block != None) || (key == OwedKey && w.owed != None)
              || (key == PlanningKey && w.planning != None) || (key == QuietKey && w.quiet != None)
  {
    hide HaltFields, CarryFields, BlockFields, OwedFields, QuietFields;
    assert key in WindowFields(w) <==> key in WINDOW_KEYS && WindowField(w, key).Some?;
  }

  lemma CursorKeysWritten(c: Cursors, key: Key)
    ensures key in CursorFields(c) <==>
              || key in {LastSeen, SeenIds, Denied}
              || (key == Forced && c.forced != []) || (key == AsksKey && c.asks != None)
              || (key == RetryKey && c.retry != [])
              || (key == PrunedAt && c.prunedAt != None && c.prunedAt != Some(Plain("")))
  {
    hide RetryThreads, AsksJson, DeniedJson;
    assert key in CursorFields(c) <==> key in CURSOR_KEYS && CursorField(c, key).Some?;
  }

  // A file loads exactly when its schema is the number one, which a float and a truth value are too;
  // and what is saved says so.
  lemma LoadsExactly(file: Json)
    ensures FromJson(file).Some? <==>
              exists fields ::
                file == Object(fields) && SchemaKey in fields
                && (fields[SchemaKey] == Int(1) || fields[SchemaKey] == Float(1.0) || fields[SchemaKey] == Bool(true))
  {
    hide WindowOf, CursorsOf, HistoryOf;
    if FromJson(file).Some? {
      var fields := FieldsOf(file);
      assert file == Object(fields) && fields[SchemaKey] == Get(fields, SchemaKey);
    }
  }

  lemma SavedSchema(s: State)
    ensures ToJson(s).Object? && Get(ToJson(s).fields, SchemaKey) == Int(1)
  {}

  // A file that says nothing else is an empty ledger, its window begun on a Thursday at midnight.
  lemma BareFileIsEmpty()
    ensures var begun := 3 * 86400;
            && FromJson(Object(map[SchemaKey := Int(1)])) == Some(State(EmptyWindow(Iso(begun)), EmptyCursors, []))
            && Weekday(begun) == 3 && begun % 86400 == 0
  {
    var file := Object(map[SchemaKey := Int(1)]);
    assert FieldsOf(Get(FieldsOf(file), WindowKey)) == map[] && FieldsOf(Get(FieldsOf(file), CursorsKey)) == map[];
    BareWindow();
    BareCursors();
    hide WindowOf, CursorsOf;
  }

  lemma BareWindow()
    ensures WindowOf(map[]) == EmptyWindow(Iso(3 * 86400))
  {}

  lemma BareCursors()
    ensures CursorsOf(map[]) == EmptyCursors
  {}

  // The usage in a file is normalised on the way in, unless it is empty or no observation at all.
  lemma UsageLoads(value: Json)
    ensures forall fields :: value == Object(fields) && fields != map[] ==>
              UsageOf(value) == Object(NormaliseUsage(fields, Plain("")))
    ensures (forall fields :: value == Object(fields) ==> fields == map[]) ==> UsageOf(value) == value
  {}

  // ---- what a save keeps ----

  function SettledUsage(usage: Json): Json {
    if usage.Object? && usage.fields != map[] then UsageOf(usage) else Null
  }

  function SettledCursors(c: Cursors): Cursors {
    c.(retry := RetryThreads(c.retry), prunedAt := Pruned(c))
  }

  // What a save and a load make of a state: the held comments come back earliest first, and
  // a usage that is no observation comes back as none.
  function Settled(s: State): State {
    s.(window := s.window.(usage := SettledUsage(s.window.usage)),
       cursors := SettledCursors(s.cursors))
  }

  // A file's fields hold what was written under a key, or leave the key out.
  ghost predicate FieldAt(f: map<Key, Json>, key: Key, written: Option<Json>) {
    match written
    case Some(value) => key in f && f[key] == value
    case None => key !in f
  }

  lemma WindowFieldAt(w: Window, key: Key)
    requires key in WINDOW_KEYS
    ensures FieldAt(WindowFields(w), key, WindowField(w, key))
  {}

  lemma HaltReadsBack(f: map<Key, Json>, w: Window)
    requires FieldAt(f, HaltKey, WindowField(w, HaltKey))
    ensures HaltOf(Get(f, HaltKey)) == w.halt
  {
    if w.halt.Some? { assert AtKey in HaltFields(w.halt.value); }
  }

  lemma CarryReadsBack(f: map<Key, Json>, w: Window)
    requires FieldAt(f, CarryKey, WindowField(w, CarryKey))
    ensures CarryOf(Get(f, CarryKey)) == w.carry
  {
    if w.carry.Some? { assert SinceKey in CarryFields(w.carry.value); }
  }

  lemma BlockReadsBack(f: map<Key, Json>, w: Window)
    requires FieldAt(f, BlockKey, WindowField(w, BlockKey))
    ensures BlockOf(Get(f, BlockKey)) == w.block
  {}

  lemma QuietReadsBack(f: map<Key, Json>, w: Window)
    requires FieldAt(f, QuietKey, WindowField(w, QuietKey))
    ensures QuietOf(Get(f, QuietKey)) == w.quiet
  {
    if w.quiet.Some? { assert AtKey in QuietFields(w.quiet.value); }
  }

  lemma OwedKeyReadsBack(f: map<Key, Json>, w: Window)
    requires FieldAt(f, OwedKey, WindowField(w, OwedKey))
    ensures OwedOf(Get(f, OwedKey)) == w.owed
  {
    if w.owed.Some? { OwedReadsBack(w.owed.value); }
  }

  lemma PlanningReadsBack(f: map<Key, Json>, w: Window)
    requires FieldAt(f, PlanningKey, WindowField(w, PlanningKey))
    ensures OwedOf(Get(f, PlanningKey)) == w.planning
  {
    if w.planning.Some? { OwedReadsBack(w.planning.value); }
  }

  lemma UsageReadsBack(f: map<Key, Json>, w: Window)
    requires FieldAt(f, UsageKey, WindowField(w, UsageKey))
    ensures UsageOf(Get(f, UsageKey)) == SettledUsage(w.usage)
  {}

  lemma PlainFieldsReadBack(f: map<Key, Json>, w: Window)
    requires FieldAt(f, PeriodStart, WindowField(w, PeriodStart)) && FieldAt(f, Calls, WindowField(w, Calls))
    requires FieldAt(f, RateLimitedKey, WindowField(w, RateLimitedKey))
    ensures PeriodStart in f && StrOf(f[PeriodStart]) == w.periodStart && IntOf(Get(f, Calls)) == w.calls
    ensures OptionalTextOf(Get(f, RateLimitedKey)) == w.rateLimitedUntil
  {}

  lemma WindowOfParts(f: map<Key, Json>, w: Window)
    requires PeriodStart in f && StrOf(f[PeriodStart]) == w.periodStart && IntOf(Get(f, Calls)) == w.calls
    requires OptionalTextOf(Get(f, RateLimitedKey)) == w.rateLimitedUntil && UsageOf(Get(f, UsageKey)) == w.usage
    requires HaltOf(Get(f, HaltKey)) == w.halt && CarryOf(Get(f, CarryKey)) == w.carry
               && BlockOf(Get(f, BlockKey)) == w.block
    requires OwedOf(Get(f, OwedKey)) == w.owed && OwedOf(Get(f, PlanningKey)) == w.planning
               && QuietOf(Get(f, QuietKey)) == w.quiet
    ensures WindowOf(f) == w
  {}

  lemma FieldsReadBack(f: map<Key, Json>, w: Window)
    requires forall key :: key in WINDOW_KEYS ==> FieldAt(f, key, WindowField(w, key))
    ensures WindowOf(f) == w.(usage := SettledUsage(w.usage))
  {
    PlainFieldsReadBack(f, w) by {
      assert FieldAt(f, PeriodStart, WindowField(w, PeriodStart)) && FieldAt(f, Calls, WindowField(w, Calls));
    }
    hide FieldAt, WindowField, WindowOf, HaltOf, CarryOf, BlockOf, OwedOf, QuietOf, UsageOf, SettledUsage,
        OptionalTextOf, StrOf, IntOf;
    UsageReadsBack(f, w);
    HaltReadsBack(f, w);
    CarryReadsBack(f, w);
    BlockReadsBack(f, w);
    OwedKeyReadsBack(f, w);
    PlanningReadsBack(f, w);
    QuietReadsBack(f, w);
    WindowOfParts(f, w.(usage := SettledUsage(w.usage)));
  }

  lemma WindowReadsBack(w: Window)
    ensures WindowOf(WindowFields(w)) == w.(usage := SettledUsage(w.usage))
  {
    forall key | key in WINDOW_KEYS ensures FieldAt(WindowFields(w), key, WindowField(w, key)) {
      WindowFieldAt(w, key);
    }
    FieldsReadBack(WindowFields(w), w);
  }

  lemma CursorFieldAt(c: Cursors, key: Key)
    requires key in CURSOR_KEYS
    ensures FieldAt(CursorFields(c), key, CursorField(c, key))
  {}

  lemma ListsReadBack(f: map<Key, Json>, c: Cursors)
    requires FieldAt(f, SeenIds, CursorField(c, SeenIds)) && FieldAt(f, Forced, CursorField(c, Forced))
    ensures Mapped(WordsOf, ItemsOf(Get(f, SeenIds))) == c.seenIds
    ensures Mapped(IntOf, ItemsOf(Get(f, Forced))) == c.forced
  {
    MappedBack(Words, WordsOf, c.seenIds);
    MappedBack(IntJson, IntOf, c.forced);
  }

  lemma HeldReadsBack(h: Held)
    ensures HeldOf(HeldJson(h)) == h
  {}

  lemma HeldReadBack(f: map<Key, Json>, c: Cursors)
    requires FieldAt(f, RetryKey, CursorField(c, RetryKey))
    ensures Mapped(HeldOf, ItemsOf(Get(f, RetryKey))) == RetryThreads(c.retry)
  {
    forall h | h in RetryThreads(c.retry) ensures HeldOf(HeldJson(h)) == h {
      HeldReadsBack(h);
    }
    MappedBack(HeldJson, HeldOf, RetryThreads(c.retry));
  }

  lemma DeniedCursorReadsBack(f: map<Key, Json>, c: Cursors)
    requires FieldAt(f, Denied, CursorField(c, Denied))
    ensures DeniedOf(Get(f, Denied)) == c.denied
  {
    DeniedReadsBack(c.denied);
  }

  lemma StampsReadBack(f: map<Key, Json>, c: Cursors)
    requires FieldAt(f, LastSeen, CursorField(c, LastSeen)) && FieldAt(f, PrunedAt, CursorField(c, PrunedAt))
    ensures InstantOf(Get(f, LastSeen)) == c.lastSeen && PrunedOf(f) == Pruned(c)
  {}

  lemma AsksReadBack(f: map<Key, Json>, c: Cursors)
    requires FieldAt(f, AsksKey, CursorField(c, AsksKey))
    ensures AsksOf(Get(f, AsksKey)) == c.asks
  {
    if c.asks.Some? { assert DateKey in AsksJson(c.asks.value).fields; }
  }

  lemma CursorsOfParts(f: map<Key, Json>, c: Cursors)
    requires InstantOf(Get(f, LastSeen)) == c.lastSeen && DeniedOf(Get(f, Denied)) == c.denied
               && PrunedOf(f) == c.prunedAt
    requires Mapped(WordsOf, ItemsOf(Get(f, SeenIds))) == c.seenIds
               && Mapped(IntOf, ItemsOf(Get(f, Forced))) == c.forced
    requires Mapped(HeldOf, ItemsOf(Get(f, RetryKey))) == c.retry
    requires AsksOf(Get(f, AsksKey)) == c.asks
    ensures CursorsOf(f) == c
  {}

  lemma CursorsReadBack(c: Cursors)
    ensures CursorsOf(CursorFields(c)) == SettledCursors(c)
  {
    var f := CursorFields(c);
    forall key | key in CURSOR_KEYS ensures FieldAt(f, key, CursorField(c, key)) {
      CursorFieldAt(c, key);
    }
    StampsReadBack(f, c);
    DeniedCursorReadsBack(f, c);
    AsksReadBack(f, c);
    ListsReadBack(f, c);
    HeldReadBack(f, c);
    CursorsOfParts(f, SettledCursors(c));
  }

  lemma WindowRead(value: Json, window: map<Key, Json>)
    requires value.Object? && Get(value.fields, SchemaKey) == Int(SCHEMA)
               && Get(value.fields, WindowKey) == Object(window)
    ensures FromJson(value).Some? && FromJson(value).value.window == WindowOf(window)
  {
    hide WindowOf, CursorsOf, HistoryOf;
  }

  lemma CursorsRead(value: Json, cursors: map<Key, Json>)
    requires value.Object? && Get(value.fields, SchemaKey) == Int(SCHEMA)
               && Get(value.fields, CursorsKey) == Object(cursors)
    ensures FromJson(value).Some? && FromJson(value).value.cursors == CursorsOf(cursors)
  {
    hide WindowOf, CursorsOf, HistoryOf;
  }

  lemma HistoryRead(value: Json, history: Json)
    requires value.Object? && Get(value.fields, SchemaKey) == Int(SCHEMA) && Get(value.fields, HistoryKey) == history
    ensures FromJson(value).Some? && FromJson(value).value.history == HistoryOf(history)
  {
    hide WindowOf, CursorsOf, HistoryOf;
  }

  lemma EntryReadsBack(e: Entry)
    ensures EntryOf(EntryJson(e)) == e
  {}

  lemma HistoryReadsBack(history: seq<Entry>)
    ensures HistoryOf(HistoryJson(history)) == history
  {
    forall e | e in history ensures EntryOf(EntryJson(e)) == e {
      EntryReadsBack(e);
    }
    MappedBack(EntryJson, EntryOf, history);
  }

  lemma WindowLoads(s: State)
    ensures FromJson(ToJson(s)).Some? && FromJson(ToJson(s)).value.window == Settled(s).window
  {
    WindowRead(ToJson(s), WindowFields(s.window));
    WindowReadsBack(s.window);
  }

  lemma CursorsLoad(s: State)
    ensures FromJson(ToJson(s)).Some? && FromJson(ToJson(s)).value.cursors == Settled(s).cursors
  {
    CursorsRead(ToJson(s), CursorFields(s.cursors));
    CursorsReadBack(s.cursors);
  }

  lemma HistoryLoads(s: State)
    ensures FromJson(ToJson(s)).Some? && FromJson(ToJson(s)).value.history == s.history
  {
    HistoryRead(ToJson(s), HistoryJson(s.history));
    HistoryReadsBack(s.history);
  }

  // Every ledger, saved and loaded, comes back settled.
  lemma LoadsWhatWasSaved(s: State)
    ensures FromJson(ToJson(s)) == Some(Settled(s))
  {
    WindowLoads(s);
    CursorsLoad(s);
    HistoryLoads(s);
  }

  // In its own terms: everything is as it was but a usage that was no observation, the order of the
  // held comments, and a pruning time that was the empty text.
  lemma SettledIs(s: State)
    ensures var t := Settled(s);
            && t.history == s.history && t.window == s.window.(usage := t.window.usage)
            && t.cursors == s.cursors.(retry := t.cursors.retry, prunedAt := t.cursors.prunedAt)
            && t.cursors.retry == RetryThreads(s.cursors.retry)
            && t.cursors.prunedAt == (if s.cursors.prunedAt == Some(Plain("")) then None else s.cursors.prunedAt)
            && (s.window.usage == Object(map[]) || !s.window.usage.Object? ==> t.window.usage == Null)
            && forall fields :: s.window.usage == Object(fields) && fields != map[] ==>
                 t.window.usage == Object(NormaliseUsage(fields, Plain("")))
  {}

  // A usage as `from_json` leaves it.
  ghost predicate UsageStored(usage: Json) {
    SettledUsage(usage) == if usage.Object? && usage.fields != map[] then usage else Null
  }

  // Whatever was loaded, its usage is in the one shape.
  lemma LoadedUsageIsStored(value: Json)
    ensures UsageStored(UsageOf(value))
  {
    if value.Object? && value.fields != map[] {
      NormaliseUsageIdempotent(value.fields, Plain(""), Plain(""));
    }
  }

  lemma WindowWrittenAgain(w: Window, key: Key)
    requires UsageStored(w.usage)
    ensures WindowField(w.(usage := SettledUsage(w.usage)), key) == WindowField(w, key)
  {}

  lemma CursorsWrittenAgain(c: Cursors, key: Key)
    ensures CursorField(SettledCursors(c), key) == CursorField(c, key)
  {
    hide RetryThreads;
    RetryThreadsSorted(c.retry);
    RetryThreadsIdempotent(RetryThreads(c.retry));
  }

  // From the first save on, saving and loading writes the same file again.
  lemma SavedAgainIsTheSame(s: State)
    requires UsageStored(s.window.usage)
    ensures ToJson(Settled(s)) == ToJson(s)
  {
    var t := Settled(s);
    forall key ensures WindowField(t.window, key) == WindowField(s.window, key)
        && CursorField(t.cursors, key) == CursorField(s.cursors, key) {
      WindowWrittenAgain(s.window, key);
      CursorsWrittenAgain(s.cursors, key);
    }
    assert WindowFields(t.window) == WindowFields(s.window);
    assert CursorFields(t.cursors) == CursorFields(s.cursors);
  }

  // Any file that loads is written the same from its first save on.
  lemma AnyFileSettles(file: Json)
    requires FromJson(file).Some?
    ensures var first := ToJson(FromJson(file).value);
            FromJson(first).Some? && ToJson(FromJson(first).value) == first
  {
    var s := FromJson(file).value;
    LoadedUsageIsStored(Get(FieldsOf(Get(FieldsOf(file), WindowKey)), UsageKey));
    LoadsWhatWasSaved(s);
    SavedAgainIsTheSame(s);
  }

  // ---- the object ----

  function Contents(ledger: Ledger): State
    reads ledger
  {
    State(ledger.window, ledger.cursors, ledger.history)
  }

  // `save` and then `load`: the ledger that comes back is valid and answers as the saved one
  // does. Its window, and with it every answer about the clock, is the same; so is every
  // cursor but the held comments, which are the ones `retry_threads` gave, in that order.
  method SaveAndLoad(ledger: Ledger) returns (file: Json, again: Ledger)
    requires ledger.Valid()
    ensures file == ToJson(Contents(ledger))
    ensures fresh(again) && again.Valid()
    ensures again.window == ledger.window && again.history == ledger.history
    ensures again.cursors == ledger.cursors.(retry := RetryThreads(ledger.cursors.retry),
              prunedAt := Pruned(ledger.cursors))
    ensures RetryThreads(again.cursors.retry) == RetryThreads(ledger.cursors.retry)
              && Pruned(again.cursors) == Pruned(ledger.cursors)
    ensures ToJson(Contents(again)) == file
  {
    file := ToJson(Contents(ledger));
    LoadsWhatWasSaved(Contents(ledger));
    SavedAgainIsTheSame(Contents(ledger));
    RetryThreadsSorted(ledger.cursors.retry);
    RetryThreadsIdempotent(RetryThreads(ledger.cursors.retry));
    RetryKeepsIds(ledger.cursors.retry);
    var s := FromJson(file).value;
    again := new Ledger.Loaded(s.window, s.cursors, s.history);
  }
}
