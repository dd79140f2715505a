// What a sweep makes of a comment's commands: which are let through, and what is counted against
// whom.
module CommandLevels {
  import opened Prelude
  import opened Strings
  import opened Ledgers
  import opened Keywords
  import opened SweepRuns
  import opened HeldAgain

  // ---- the level gate ----

  // The command is the typed one when its author reaches the level it needs, and a refusal when not.
  // The force flag is the top level's; below that the command stands without it, and says so.
  ghost predicate AsTyped(c: Comment, t: Typed, place: Where, command: Command) {
    && command.place == place && command.commentId == c.id && command.posted == c.posted
    && command.actor == c.login && command.level == c.level
    && (c.level >= t.needed ==> command.verb == t.verb && command.args == t.args)
    && (c.level < t.needed ==> command.verb == "__denied__" && command.args == Refusal(c, t))
    && (command.force <==> t.force && c.level >= t.needed && c.level >= 3)
    && (command.noted <==> t.force && c.level >= t.needed && c.level < 3)
  }

  ghost function Refusal(c: Comment, t: Typed): string {
    "/harness " + (if t.word == "" then t.verb else t.word) + " needs level " + Digits(t.needed) + "; @" + c.login
    + " is level " + Digits(c.level)
  }

  lemma OneIsAsTyped(c: Comment, t: Typed, place: Where)
    ensures AsTyped(c, t, place, One(t, c, place))
  {
    hide Digits;
  }

  // The commands are the comment's own, in the order they were typed.
  ghost predicate AllAsTyped(c: Comment, place: Where, b: Batch) {
    |b| == |c.typed| && forall k :: 0 <= k < |b| ==> AsTyped(c, c.typed[k], place, b[k])
  }

  lemma CommandsAreAsTyped(c: Comment, place: Where)
    ensures AllAsTyped(c, place, CommandsOf(c.typed, c, place))
  {
    hide AsTyped, One;
    forall k | 0 <= k < |c.typed| ensures AsTyped(c, c.typed[k], place, CommandsOf(c.typed, c, place)[k]) {
      OneIsAsTyped(c, c.typed[k], place);
    }
  }

  // The comment is a trusted person's, not the machine's own, and says something.
  ghost predicate Taken(cfg: Config, c: Comment) {
    && c.authorised && c.typed != []
    && (cfg.machine == "" || Login(c.login) != Login(cfg.machine))
  }

  lemma TakenIsHeeded(cfg: Config, c: Comment)
    ensures Taken(cfg, c) <==> Heeded(cfg, c)
  {}

  // A login is one whatever its case, and however many signs stand before it.
  lemma LoginIs(ats: string, name: string)
    requires All(ats, IsAt) && (name == "" || name[0] != '@')
    ensures Login(ats + name) == Lower(name)
  {
    StripLeftPast(ats, name, IsAt);
  }

  // Every comment a sweep collects, returning or held for later, is a taken comment some request
  // listed, and its commands are as it typed them under its author's level.
  lemma CollectedAreAsTyped(cfg: Config, s: Step, l: Log, b: Batch)
    requires Happened(cfg, s, l) && b in l.out.batches
    ensures exists r, c :: r in AllRequests(cfg, s.world, s.thread, l.before, s.limited)
                           && ListsRow(s.world, r, c) && Taken(cfg, c) && AllAsTyped(c, r.place, b)
  {
    hide AllRequests, Requests, RowsOf, Begin, Heeded, Taken, AllAsTyped, RunBatch;
    var rs := AllRequests(cfg, s.world, s.thread, l.before, s.limited);
    NothingBegun(l.before, s.limited);
    RequestsOrigin(cfg, s.world, Begin(l.before, s.limited), rs, b);
    var r, c :| r in rs && ListsRow(s.world, r, c) && Heeded(cfg, c) && b == CommandsOf(c.typed, c, r.place);
    TakenIsHeeded(cfg, c);
    CommandsAreAsTyped(c, r.place);
  }

  // ---- refusals are counted ----

  function CountOf(denied: map<string, int>, h: string): int {
    if h in denied then denied[h] else 0
  }

  // How many of the commands are refusals, by that author.
  function DeniedBy(commands: seq<Command>, h: string): nat {
    if commands == [] then 0
    else (if commands[0].verb == "__denied__" && commands[0].actor == h then 1 else 0) + DeniedBy(commands[1..], h)
  }

  lemma {:induction false} DeniedConcat(a: seq<Command>, b: seq<Command>, h: string)
    ensures DeniedBy(a + b, h) == DeniedBy(a, h) + DeniedBy(b, h)
  {
    if a == [] {
      assert a + b == b;
    } else {
      assert (a + b)[1..] == a[1..] + b;
      DeniedConcat(a[1..], b, h);
    }
  }

  // No comment types the word a refusal goes by, which names no verb.
  ghost predicate NoneTypesDenied(c: Comment) {
    forall k :: 0 <= k < |c.typed| ==> c.typed[k].verb != "__denied__"
  }

  lemma BumpCounts(denied: map<string, int>, who: string, h: string)
    ensures CountOf(Bump(denied, who), h) == CountOf(denied, h) + if h == who then 1 else 0
  {}

  lemma {:induction false} DenialsCount(typed: seq<Typed>, c: Comment, place: Where, denied: map<string, int>,
                                        h: string)
    requires forall k :: 0 <= k < |typed| ==> typed[k].verb != "__denied__"
    ensures CountOf(DenialsOf(typed, c, denied), h) == CountOf(denied, h) + DeniedBy(CommandsOf(typed, c, place), h)
  {
    hide AsTyped, Bump, CountOf;
    if typed != [] {
      var next := if c.level < typed[0].needed then Bump(denied, c.login) else denied;
      BumpCounts(denied, c.login, h);
      DenialsCount(typed[1..], c, place, next, h);
      OneIsAsTyped(c, typed[0], place);
      var all := CommandsOf(typed, c, place);
      assert all[1..] == CommandsOf(typed[1..], c, place);
      DeniedFirst(all, c, typed[0], place, h);
    }
  }

  lemma DeniedFirst(all: seq<Command>, c: Comment, t: Typed, place: Where, h: string)
    requires all != [] && AsTyped(c, t, place, all[0]) && t.verb != "__denied__"
    ensures DeniedBy(all, h) == (if c.level < t.needed && c.login == h then 1 else 0) + DeniedBy(all[1..], h)
  {}

  // What one row adds to what is counted against a login: nothing when it was seen before, is the
  // machine's, or another's; one when its author is not trusted; and one for each command above
  // the author's level when it is.
  lemma OneRowCounts(cfg: Config, place: Where, g: Gathered, c: Comment, h: string)
    requires NoneTypesDenied(c)
    ensures CountOf(OneRow(cfg, place, g, c).denied, h) == CountOf(g.denied, h)
         + if c.id in g.seen || ByMachine(cfg, c) then 0
           else if !c.authorised then (if h == c.login then 1 else 0)
           else DeniedBy(CommandsOf(c.typed, c, place), h)
  {
    hide CommandsOf, DenialsOf, CountOf, Bump;
    RowOf(cfg, place, g, c);
    BumpCounts(g.denied, c.login, h);
    DenialsCount(c.typed, c, place, g.denied, h);
    if c.typed == [] { NoCommands(c, place, h); }
  }

  lemma NoCommands(c: Comment, place: Where, h: string)
    requires c.typed == []
    ensures DeniedBy(CommandsOf(c.typed, c, place), h) == 0
  {}

  // Nothing `ack` answers holds a refusal.
  lemma AnsweredHasNone(cfg: Config, place: Where, c: Comment, h: string)
    requires AnsweredByAck(cfg, place, c)
    ensures DeniedBy(CommandsOf(c.typed, c, place), h) == 0
  {
    NoneDenied(CommandsOf(c.typed, c, place), h);
  }

  lemma {:induction false} NoneDenied(commands: seq<Command>, h: string)
    requires forall k :: 0 <= k < |commands| ==> commands[k].verb == STATUS
    ensures DeniedBy(commands, h) == 0
  {
    if commands != [] { NoneDenied(commands[1..], h); }
  }

  // What is counted against the login is what was collected of its refusals, and `more`.
  ghost predicate Tallied(g: Gathered, h: string, more: int) {
    CountOf(g.denied, h) == more + DeniedBy(Flatten(g.batches), h)
  }

  // Every comment of the login among the rows is a trusted one.
  ghost predicate Known(rows: seq<Comment>, h: string) {
    forall k :: 0 <= k < |rows| ==> NoneTypesDenied(rows[k]) && (rows[k].login == h ==> rows[k].authorised)
  }

  lemma OneRowTallies(cfg: Config, place: Where, g: Gathered, c: Comment, h: string, more: int)
    requires Tallied(g, h, more) && NoneTypesDenied(c) && (c.login == h ==> c.authorised)
    ensures Tallied(OneRow(cfg, place, g, c), h, more)
  {
    hide CountOf, DeniedBy, CommandsOf, Bump, AnsweredByAck, ByMachine, Flatten, DenialsOf;
    OneRowCounts(cfg, place, g, c, h);
    RowOf(cfg, place, g, c);
    var b := CommandsOf(c.typed, c, place);
    if AnsweredByAck(cfg, place, c) { AnsweredHasNone(cfg, place, c, h); }
    FlattenOne(g.batches, b);
    DeniedConcat(Flatten(g.batches), b, h);
    assert g.batches + [] == g.batches;
  }

  lemma FlattenOne(batches: seq<Batch>, b: Batch)
    ensures Flatten(batches + [b]) == Flatten(batches) + b
  {
    assert (batches + [b])[..|batches|] == batches;
  }

  lemma {:induction false} RowsTally(cfg: Config, place: Where, bound: Option<int>, g: Gathered, rows: seq<Comment>,
                                     h: string, more: int)
    requires Tallied(g, h, more) && Known(rows, h)
    ensures Tallied(Rows(cfg, place, bound, g, rows), h, more)
  {
    hide Tallied, OneRow, Within, NoneTypesDenied;
    if rows != [] {
      var front, c := rows[..|rows| - 1], rows[|rows| - 1];
      RowsTally(cfg, place, bound, g, front, h, more);
      OneRowTallies(cfg, place, Rows(cfg, place, bound, g, front), c, h, more);
    }
  }

  ghost predicate KnownIn(world: World, h: string) {
    forall t :: t in world.threads ==> Known(world.threads[t].comments + world.threads[t].reviews, h)
  }

  lemma {:induction false} RequestsTally(cfg: Config, world: World, p: Progress, rs: seq<Request>, h: string, more: int)
    requires Tallied(p.g, h, more) && KnownIn(world, h)
    ensures Tallied(Requests(cfg, world, p, rs).g, h, more)
  {
    hide Tallied, Rows, Known;
    if rs != [] {
      var front, r := rs[..|rs| - 1], rs[|rs| - 1];
      RequestsTally(cfg, world, p, front, h, more);
      var q, t := Requests(cfg, world, p, front), ThreadOf(r.place);
      if t in world.threads {
        KnownRows(world, t, r.place.surface, h);
        RowsTally(cfg, r.place, r.bound, q.g, RowsOf(world.threads[t], r.place.surface), h, more);
      }
    }
  }

  lemma KnownRows(world: World, t: Thread, surface: string, h: string)
    requires t in world.threads && KnownIn(world, h)
    ensures Known(RowsOf(world.threads[t], surface), h)
  {
    hide NoneTypesDenied;
    var rows, all := RowsOf(world.threads[t], surface), world.threads[t].comments + world.threads[t].reviews;
    assert |rows| <= |all| && rows == all[..|rows|];
  }

  // Over a sweep that returns, what is counted against a login grows by exactly the refusals among
  // its commands, when every comment of its that was read is trusted.
  lemma RefusalsAreCounted(cfg: Config, world: World, thread: int, cursors: Cursors, limited: bool, h: string)
    requires KnownIn(world, h) && SweepOutcome(cfg, world, thread, cursors, limited).returned
    ensures var out := SweepOutcome(cfg, world, thread, cursors, limited);
            CountOf(out.cursors.denied, h) == CountOf(cursors.denied, h) + DeniedBy(Flatten(out.batches), h)
  {
    hide AllRequests, KnownIn;
    var p := Begin(cursors, limited);
    assert Tallied(p.g, h, CountOf(cursors.denied, h));
    RequestsTally(cfg, world, p, AllRequests(cfg, world, thread, cursors, limited), h, CountOf(cursors.denied, h));
  }

  // ---- which threads are read ----

  // The thread a notification names, by its kind and its repository.
  lemma TargetsAre(cfg: Config, n: Notice)
    ensures var here, upstream := Lower(n.repo) == Lower(cfg.selfRepo), Lower(n.repo) == Lower(cfg.upstreamRepo);
            var at := (surface: string) =>
              if n.number.Some? then Some(Where(n.repo, surface, n.number.value)) else None;
            ThreadTarget(cfg, n) ==
            if n.kind == "PullRequest" then
              (if here then at("proposal_pr") else if upstream then at("delivery_pr") else None)
            else if n.kind == "Issue" then
              (if here then at(if cfg.inbox != 0 && n.number == Some(cfg.inbox) then "inbox" else "issue")
               else if upstream then at("product_issue") else None)
            else None
  {}

  // A thread's review comments are read with it exactly when it is a pull request's.
  lemma RowsAre(view: View, surface: string, c: Comment)
    ensures c in RowsOf(view, surface) <==>
              c in view.comments || (c in view.reviews && surface in ["proposal_pr", "delivery_pr"])
  {}

  // A comment is read when it was last changed, or else posted, at the bound or after it; a comment
  // with neither instant only where there is no bound.
  lemma ReadFrom(c: Comment, bound: Option<int>)
    ensures Within(bound, Stamp(c)) <==>
              forall b :: bound == Some(b) ==>
                exists t :: (c.updated == Some(t) || (c.updated == None && c.posted == Some(t))) && b <= t
  {
    if bound.Some? && Within(bound, Stamp(c)) {
      var t := Stamp(c).value;
      assert (c.updated == Some(t) || (c.updated == None && c.posted == Some(t))) && bound.value <= t;
    }
  }

  // A sweep asks for the inbox whole, if there is one; with no limit for the thread of each held
  // comment, from when it was posted; for the thread a comment event names, whole, unless it is the
  // inbox or cannot be told; and for each thread the feed names, from the feed's own bound. Only the
  // held ones may fail.
  ghost predicate Asked(cfg: Config, world: World, thread: int, cursors: Cursors, limited: bool, r: Request) {
    || (cfg.inbox != 0 && r == Request(Where(cfg.selfRepo, "inbox", cfg.inbox), None, false))
    || (!limited && exists h :: h in cursors.retry && r == Request(Where(h.repo, h.surface, h.number), h.since, true))
    || (thread != 0 && thread != cfg.inbox && exists pull ::
          world.named == Some(pull)
          && r == Request(Where(cfg.selfRepo, if pull then "proposal_pr" else "issue", thread), None, false))
    || (exists n, place ::
          world.feed.Some? && n in world.feed.value && ThreadTarget(cfg, n) == Some(place)
          && r == Request(place, Some(FeedBound(cursors, world)), false))
  }

  // Half an hour before the last feed, or three hours back when none has come.
  ghost function FeedBound(cursors: Cursors, world: World): int {
    match cursors.lastSeen
    case Some(cursor) => cursor - 1800
    case None => world.now - 10800
  }

  lemma {:induction false} FeedAsks(cfg: Config, notices: seq<Notice>, since: int, r: Request)
    ensures r in FeedRequests(cfg, notices, since) <==>
              exists n, place :: n in notices && ThreadTarget(cfg, n) == Some(place)
                                 && r == Request(place, Some(since), false)
  {
    hide ThreadTarget;
    if notices != [] {
      var front, last := notices[..|notices| - 1], notices[|notices| - 1];
      assert notices == front + [last];
      FeedAsks(cfg, front, since, r);
    }
  }

  lemma HeldAsks(cursors: Cursors, limited: bool, r: Request)
    ensures r in HeldRequests(HeldNow(cursors, limited)) <==>
              !limited && exists h ::
                h in cursors.retry && r == Request(Where(h.repo, h.surface, h.number), h.since, true)
  {
    var held := HeldNow(cursors, limited);
    RetryThreadsSorted(cursors.retry);
    if r in HeldRequests(held) {
      var k :| 0 <= k < |held| && HeldRequests(held)[k] == r;
      assert held[k] in multiset(RetryThreads(cursors.retry));
    }
    if !limited {
      forall h | h in cursors.retry && r == Request(Where(h.repo, h.surface, h.number), h.since, true)
        ensures r in HeldRequests(held)
      {
        assert h in multiset(RetryThreads(cursors.retry));
        var k :| 0 <= k < |held| && held[k] == h;
        assert HeldRequests(held)[k] == r;
      }
    }
  }

  lemma RequestsAre(cfg: Config, world: World, thread: int, cursors: Cursors, limited: bool, r: Request)
    ensures r in AllRequests(cfg, world, thread, cursors, limited) <==> Asked(cfg, world, thread, cursors, limited, r)
  {
    hide ThreadTarget, HeldRequests, HeldNow, FeedRequests;
    HeldAsks(cursors, limited, r);
    var since := Since(cursors.lastSeen, world.now);
    assert since == FeedBound(cursors, world);
    if world.feed.Some? { FeedAsks(cfg, world.feed.value, since, r); }
    var held := HeldNow(cursors, limited);
    assert r in AllRequests(cfg, world, thread, cursors, limited) <==>
             || r in InboxRequests(cfg) || r in HeldRequests(held) || r in NamedRequests(cfg, world, thread)
             || r in FeedOrNone(cfg, world, since);
  }
}
