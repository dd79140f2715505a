// A held comment across sweeps: how it comes back, and how a raise lets it run twice.
module HeldAgain {
  import opened Prelude
  import opened Strings
  import opened Ledgers
  import opened Keywords
  import opened SweepCoverage
  import opened SweepRuns
  import opened SweepPromises

  // ---- where a collected comment stood ----

  // The batch is one comment's commands, as a request of the sweep listed it.
  ghost predicate FromRequest(cfg: Config, world: World, rs: seq<Request>, b: Batch) {
    exists r, c :: r in rs && ListsRow(world, r, c) && Heeded(cfg, c) && b == CommandsOf(c.typed, c, r.place)
  }

  ghost predicate ListsRow(world: World, r: Request, c: Comment) {
    ThreadOf(r.place) in world.threads && c in RowsOf(world.threads[ThreadOf(r.place)], r.place.surface)
  }

  ghost predicate FromRow(cfg: Config, place: Where, rows: seq<Comment>, b: Batch) {
    exists c :: c in rows && Heeded(cfg, c) && b == CommandsOf(c.typed, c, place)
  }

  lemma {:induction false} RowsOrigin(cfg: Config, place: Where, bound: Option<int>, g: Gathered, rows: seq<Comment>,
                                      b: Batch)
    requires b in Rows(cfg, place, bound, g, rows).batches
    ensures b in g.batches || FromRow(cfg, place, rows, b)
  {
    hide CommandsOf, Within, AnsweredByAck, ByMachine;
    if rows != [] {
      var front, c := rows[..|rows| - 1], rows[|rows| - 1];
      assert rows == front + [c];
      if b in Rows(cfg, place, bound, g, front).batches {
        RowsOrigin(cfg, place, bound, g, front, b);
      }
    }
  }

  lemma {:induction false} RequestsOrigin(cfg: Config, world: World, p: Progress, rs: seq<Request>, b: Batch)
    requires b in Requests(cfg, world, p, rs).g.batches
    ensures b in p.g.batches || FromRequest(cfg, world, rs, b)
  {
    hide CommandsOf, Rows;
    if rs != [] {
      var front, r := rs[..|rs| - 1], rs[|rs| - 1];
      assert rs == front + [r];
      if b in Requests(cfg, world, p, front).g.batches {
        RequestsOrigin(cfg, world, p, front, b);
      } else {
        RowsOrigin(cfg, r.place, r.bound, Requests(cfg, world, p, front).g,
            RowsOf(world.threads[ThreadOf(r.place)], r.place.surface), b);
      }
    }
  }

  // ---- the repository a surface names ----

  predicate IsHere(surface: string) {
    surface == "issue" || surface == "inbox" || surface == "proposal_pr"
  }

  predicate WellPlaced(cfg: Config, repo: string, surface: string) {
    Lower(repo) == Lower(if IsHere(surface) then cfg.selfRepo else cfg.upstreamRepo)
  }

  ghost predicate AllPlaced(cfg: Config, retry: seq<Held>) {
    forall h :: h in retry ==> WellPlaced(cfg, h.repo, h.surface)
  }

  lemma {:induction false} FeedPlaced(cfg: Config, notices: seq<Notice>, since: int, r: Request)
    requires r in FeedRequests(cfg, notices, since)
    ensures WellPlaced(cfg, r.place.repo, r.place.surface)
  {
    var front := notices[..|notices| - 1];
    if r in FeedRequests(cfg, front, since) { FeedPlaced(cfg, front, since, r); }
  }

  // Every thread a sweep asks for lies in the repository its surface names.
  lemma RequestPlaced(cfg: Config, world: World, thread: int, cursors: Cursors, limited: bool, r: Request)
    requires AllPlaced(cfg, cursors.retry) && r in AllRequests(cfg, world, thread, cursors, limited)
    ensures WellPlaced(cfg, r.place.repo, r.place.surface)
  {
    var held := HeldNow(cursors, limited);
    if r in HeldRequests(held) {
      var k :| 0 <= k < |held| && HeldRequests(held)[k] == r;
      RetryThreadsSorted(cursors.retry);
      assert held[k] in multiset(RetryThreads(cursors.retry));
    } else if r in FeedOrNone(cfg, world, Since(cursors.lastSeen, world.now)) {
      FeedPlaced(cfg, world.feed.value, Since(cursors.lastSeen, world.now), r);
    }
  }

  // An entry names its comment's own thread, and when the comment was posted.
  ghost predicate EntryOf(cfg: Config, b: Batch)
    requires b != []
  {
    var e := HeldForGroup(cfg, b);
    && e.commentId == CommentOf(b) && e.since == b[0].posted && WellPlaced(cfg, e.repo, e.surface)
    && ThreadOf(HeldRequest(e).place) == ThreadOf(b[0].place)
  }

  lemma HeededTypes(cfg: Config, c: Comment)
    requires Heeded(cfg, c)
    ensures c.typed != [] && c.authorised
  {}

  lemma NothingBegun(cursors: Cursors, limited: bool)
    ensures Begin(cursors, limited).g.batches == []
  {}

  lemma EntryIs(cfg: Config, c: Comment, place: Where)
    requires c.typed != [] && WellPlaced(cfg, place.repo, place.surface)
    ensures var b := CommandsOf(c.typed, c, place); b != [] && EntryOf(cfg, b)
  {
    hide Lower, DenialText, CommandsOf;
    var b := CommandsOf(c.typed, c, place);
    assert b[0] == One(c.typed[0], c, place);
  }

  lemma EntryNamesItsThread(cfg: Config, s: Step, l: Log, b: Batch)
    requires Happened(cfg, s, l) && AllPlaced(cfg, l.before.retry) && b in l.out.batches
    ensures b != [] && EntryOf(cfg, b)
  {
    hide AllRequests, Requests, RowsOf, Begin, Heeded, EntryOf, CommandsOf, WellPlaced, AllPlaced;
    var rs := AllRequests(cfg, s.world, s.thread, l.before, s.limited);
    NothingBegun(l.before, s.limited);
    RequestsOrigin(cfg, s.world, Begin(l.before, s.limited), rs, b);
    var r, c :| r in rs && ListsRow(s.world, r, c) && Heeded(cfg, c) && b == CommandsOf(c.typed, c, r.place);
    HeededTypes(cfg, c);
    RequestPlaced(cfg, s.world, s.thread, l.before, s.limited, r);
    EntryIs(cfg, c, r.place);
  }

  // ---- the entry waits ----

  lemma {:induction false} TallyKeeps(cfg: Config, results: Results, retry: seq<Held>, groups: seq<Batch>, e: Held)
    requires e in retry
    ensures e in RunGroups(cfg, results, retry, groups).retry
  {
    if groups != [] { TallyKeeps(cfg, results, retry, groups[..|groups| - 1], e); }
  }

  lemma BatchKeeps(cfg: Config, results: Results, retry: seq<Held>, groups: seq<Batch>, cut: Option<Cut>, e: Held)
    requires e in retry
    ensures e in RunBatch(cfg, results, retry, groups, cut).retry
  {
    if CutsAt(cfg, results, retry, groups, cut) {
      TallyKeeps(cfg, results, retry, groups[..cut.value.place], e);
    } else {
      TallyKeeps(cfg, results, retry, groups, e);
    }
  }

  // A comment held back joins the entries under its own thread.
  lemma {:induction false} TallyAdds(cfg: Config, results: Results, retry: seq<Held>, groups: seq<Batch>, i: nat)
    requires WellBatched(groups) && i < |groups| && |RunGroups(cfg, results, retry, groups).fates| == |groups|
    requires RunGroups(cfg, results, retry, groups).fates[i].HeldBack? && CommentOf(groups[i]) !in HeldIds(retry)
    ensures HeldForGroup(cfg, groups[i]) in RunGroups(cfg, results, retry, groups).retry
  {
    var front, g := groups[..|groups| - 1], groups[|groups| - 1];
    assert groups == front + [g];
    WellBatchedSplit(front, g);
    TallyHolds(cfg, results, retry, front);
    if i < |front| {
      TallyAdds(cfg, results, retry, front, i);
    } else {
      HeldBackCollected(front, RunGroups(cfg, results, retry, front).fates);
      assert CommentOf(g) !in HeldIds(RunGroups(cfg, results, retry, front).retry);
    }
  }

  lemma BatchAdds(cfg: Config, results: Results, retry: seq<Held>, groups: seq<Batch>, cut: Option<Cut>, i: nat)
    requires WellBatched(groups) && i < |RunBatch(cfg, results, retry, groups, cut).fates| && i < |groups|
    requires RunBatch(cfg, results, retry, groups, cut).fates[i].HeldBack? && CommentOf(groups[i]) !in HeldIds(retry)
    ensures HeldForGroup(cfg, groups[i]) in RunBatch(cfg, results, retry, groups, cut).retry
  {
    hide RunGroups;
    BatchHolds(cfg, results, retry, groups, cut);
    if CutsAt(cfg, results, retry, groups, cut) {
      var k := cut.value.place;
      var front := groups[..k];
      TallyHolds(cfg, results, retry, front);
      WellBatchedFront(groups, k);
      if i < k {
        TallyAdds(cfg, results, retry, front, i);
        assert groups[i] == front[i];
      } else {
        HeldBackCollected(front, RunGroups(cfg, results, retry, front).fates);
      }
      assert forall h :: h in RunGroups(cfg, results, retry, front).retry ==>
                           h in Holding(RunGroups(cfg, results, retry, front).retry, HeldForGroup(cfg, groups[k]));
    } else {
      TallyAdds(cfg, results, retry, groups, i);
    }
  }

  lemma WellBatchedFront(groups: seq<Batch>, k: nat)
    requires WellBatched(groups) && k < |groups|
    ensures WellBatched(groups[..k]) && CommentOf(groups[k]) !in Elements(BatchIds(groups[..k]))
  {
    var ids, front := BatchIds(groups), BatchIds(groups[..k]);
    assert front == ids[..k];
    forall b | b in groups[..k] ensures OneComment(b) { assert b in groups; }
    forall id | id in front ensures id != CommentOf(groups[k]) {
      var i :| 0 <= i < k && front[i] == id;
      assert ids[i] != ids[k];
    }
  }

  lemma {:induction false} NoneReleased(held: seq<Held>)
    ensures NotReleased(held, {}) == held
  {
    if held != [] { NoneReleased(held[1..]); }
  }

  // A sweep under the stored limit, or one that raises, leaves every entry.
  lemma EntryWaits(cfg: Config, s: Step, l: Log, e: Held)
    requires Happened(cfg, s, l) && e in l.before.retry && (s.limited || !l.out.returned)
    ensures e in CursorsAfter(l).retry
  {
    if l.out.returned {
      RetryThreadsSorted(l.before.retry);
      assert e in multiset(RetryThreads(l.before.retry));
      assert HeldIds([]) == {};
      NoneReleased(RetryThreads(l.before.retry));
      BatchKeeps(cfg, s.results, l.out.cursors.retry, l.out.batches, s.cut, e);
    }
  }

  lemma {:induction false} TallyPlaced(cfg: Config, results: Results, retry: seq<Held>, groups: seq<Batch>)
    requires AllPlaced(cfg, retry) && forall b :: b in groups ==> b != []
    ensures AllPlaced(cfg, RunGroups(cfg, results, retry, groups).retry)
  {
    if groups != [] {
      var front, g := groups[..|groups| - 1], groups[|groups| - 1];
      assert groups == front + [g] && g in groups && forall b :: b in front ==> b in groups;
      TallyPlaced(cfg, results, retry, front);
      var t := RunGroups(cfg, results, retry, front);
      assert forall h :: h in Holding(t.retry, HeldForGroup(cfg, g)) ==> h in t.retry || h == HeldFor(cfg, g[0]);
    }
  }

  lemma BatchPlaced(cfg: Config, results: Results, retry: seq<Held>, groups: seq<Batch>, cut: Option<Cut>)
    requires AllPlaced(cfg, retry) && forall b :: b in groups ==> b != []
    ensures AllPlaced(cfg, RunBatch(cfg, results, retry, groups, cut).retry)
  {
    hide RunGroups;
    if CutsAt(cfg, results, retry, groups, cut) {
      var k := cut.value.place;
      assert groups[k] in groups && forall b :: b in groups[..k] ==> b in groups;
      TallyPlaced(cfg, results, retry, groups[..k]);
      var t := RunGroups(cfg, results, retry, groups[..k]);
      assert forall h :: h in Holding(t.retry, HeldForGroup(cfg, groups[k])) ==>
                           h in t.retry || h == HeldFor(cfg, groups[k][0]);
    } else {
      TallyPlaced(cfg, results, retry, groups);
    }
  }

  lemma {:induction false} ReleasedAreHeld(held: seq<Held>, gone: set<string>, h: Held)
    requires h in NotReleased(held, gone)
    ensures h in held
  {
    if held != [] && h in NotReleased(held[1..], gone) {
      ReleasedAreHeld(held[1..], gone, h);
      assert held == [held[0]] + held[1..];
    }
  }

  lemma StepPlaced(cfg: Config, s: Step, l: Log)
    requires Distinct(l.before.seenIds) && Happened(cfg, s, l) && AllPlaced(cfg, l.before.retry)
    ensures AllPlaced(cfg, CursorsAfter(l).retry)
  {
    if l.out.returned {
      RetryThreadsSorted(l.before.retry);
      forall h | h in l.out.cursors.retry ensures WellPlaced(cfg, h.repo, h.surface) {
        ReleasedAreHeld(RetryThreads(l.before.retry), HeldIds(HeldNow(l.before, s.limited)), h);
        assert h in multiset(RetryThreads(l.before.retry));
      }
      OutcomeSound(cfg, s.world, s.thread, l.before, s.limited);
      forall b | b in l.out.batches ensures b != [] { assert OneComment(b); }
      BatchPlaced(cfg, s.results, l.out.cursors.retry, l.out.batches, s.cut);
    }
  }

  lemma {:induction false} RunPlaced(cfg: Config, run: seq<Step>, logs: seq<Log>, k: nat)
    requires k < |run| == |logs| && IsRun(cfg, run, logs) && Settled(logs[0].before, {}) && Careful(run, logs)
    requires AllPlaced(cfg, logs[0].before.retry)
    ensures AllPlaced(cfg, logs[k].before.retry)
  {
    hide Happened, CursorsAfter, AllPlaced, HeldSeen;
    if k > 0 {
      RunPlaced(cfg, run, logs, k - 1);
      RunSettles(cfg, run, logs, k - 1);
      assert Happened(cfg, run[k - 1], logs[k - 1]) && Follows(logs, k);
      StepPlaced(cfg, run[k - 1], logs[k - 1]);
    }
  }

  // ---- it comes back ----

  // The entry of a comment a sweep held, before the next one.
  lemma HeldEntryMade(cfg: Config, s: Step, l: Log, i: nat)
    requires Happened(cfg, s, l) && l.out.returned && Settled(l.before, {}) && (s.limited ==> HeldSeen(l.before))
    requires i < |l.out.batches| && i < |l.tally.fates| && l.tally.fates[i].HeldBack?
    ensures HeldForGroup(cfg, l.out.batches[i]) in CursorsAfter(l).retry
  {
    hide SweepOutcome, RunBatch;
    SweepFacts(cfg, s, l.before, l.out);
    var id := CommentOf(l.out.batches[i]);
    assert BatchIds(l.out.batches)[i] == id;
    var base := Elements(l.before.seenIds) - (HeldIds(l.before.retry) - HeldWhile(l.before, s.limited));
    assert id in BatchIds(l.out.batches) && id !in base;
    assert id !in HeldIds(l.out.cursors.retry);
    assert l.tally == RunBatch(cfg, s.results, l.out.cursors.retry, l.out.batches, s.cut);
    BatchAdds(cfg, s.results, l.out.cursors.retry, l.out.batches, s.cut, i);
  }

  lemma {:induction false} EntryWaitsUntil(cfg: Config, run: seq<Step>, logs: seq<Log>, i: nat, j: nat, e: Held)
    requires i < j < |run| == |logs| && IsRun(cfg, run, logs) && e in CursorsAfter(logs[i]).retry
    requires forall k :: i < k < j ==> run[k].limited || !logs[k].out.returned
    ensures e in logs[j].before.retry
  {
    hide Happened, CursorsAfter;
    assert Follows(logs, j);
    if i < j - 1 {
      EntryWaitsUntil(cfg, run, logs, i, j - 1, e);
      assert Happened(cfg, run[j - 1], logs[j - 1]);
      EntryWaits(cfg, run[j - 1], logs[j - 1], e);
    }
  }

  // A comment held in one sweep is collected by the first sweep to return with no stored limit
  // after it, if its thread reads then and it still stands and is heeded there as it was posted,
  // unless `ack` has answered it; and its entry is released.
  lemma HeldIsCollectedLater(cfg: Config, run: seq<Step>, logs: seq<Log>, i: nat, j: nat, n: nat, c: Comment)
    requires i < j < |run| == |logs| && IsRun(cfg, run, logs) && Careful(run, logs)
    requires Settled(logs[0].before, {}) && AllPlaced(cfg, logs[0].before.retry)
    requires logs[i].out.returned && n < |logs[i].out.batches| && n < |logs[i].tally.fates|
               && logs[i].tally.fates[n].HeldBack?
    requires forall k :: i < k < j ==> run[k].limited || !logs[k].out.returned
    requires !run[j].limited && logs[j].out.returned
    requires var b := logs[i].out.batches[n];
             && b != [] && c.id == CommentOf(b) && c.posted == b[0].posted && DatedInOrder(c) && Heeded(cfg, c)
             && Stands(run[j].world, ThreadOf(b[0].place), c)
             && ListedBy(run[j].world, AllRequests(cfg, run[j].world, run[j].thread, logs[j].before, false),
                 ThreadOf(b[0].place), c)
    ensures c.id in CollectedIn(logs[j]) <==> !AnsweredByAck(cfg, logs[i].out.batches[n][0].place, c)
    ensures c.id !in HeldIds(logs[j].out.cursors.retry)
  {
    hide Stands, ListedBy, AllRequests, Heeded, AnsweredByAck, CollectedIn, SweepOutcome, RunBatch;
    var b := logs[i].out.batches[n];
    RunSettles(cfg, run, logs, i);
    RunSettles(cfg, run, logs, j);
    RunPlaced(cfg, run, logs, i);
    assert Happened(cfg, run[i], logs[i]) && Happened(cfg, run[j], logs[j]);
    var e := HeldForGroup(cfg, b);
    EntryNamesItsThread(cfg, run[i], logs[i], b);
    HeldEntryMade(cfg, run[i], logs[i], n);
    EntryWaitsUntil(cfg, run, logs, i, j, e);
    assert e.commentId == c.id && e.since == c.posted && EntryFor(e, c);
    HeldCommentsComeBack(cfg, run[j].world, run[j].thread, logs[j].before, e, c);
    AnsweredAlike(cfg, HeldRequest(e).place, b[0].place, c);
    CollectedIs(logs[j], c.id);
  }

  lemma CollectedIs(l: Log, id: string)
    ensures id in CollectedIn(l) <==> id in BatchIds(l.out.batches)
  {}

  // ---- a raise lets it run twice ----

  const HOME := Config("self/repo", "up/repo", 1, "")
  const INBOX := Where("self/repo", "inbox", 1)

  // A person's comment with one command, held from when it was posted.
  const ASKED := Comment("c", "ann", true, 3, [Typed("work", "", 1, "", false)], Some(0), None, false)
  const WAITING := EmptyCursors.(seenIds := ["c"], retry := [Held("self/repo", "inbox", 1, "c", Some(0))])

  function Shut(now: int): World {
    World(now, None, None, map[])
  }

  function Readable(now: int): World {
    World(now, None, None, map[ThreadOf(INBOX) := View([ASKED], [])])
  }

  function AllWell(): Results {
    _ => Answered
  }

  lemma ShutRaises()
    ensures var out := SweepOutcome(HOME, Shut(0), 0, WAITING, false);
            !out.returned && out.cursors.retry == WAITING.retry && out.cursors.seenIds == []
  {
    ARaiseUnseesHeld(HOME, Shut(0), 0, WAITING);
    var out := SweepOutcome(HOME, Shut(0), 0, WAITING, false);
    var retry := WAITING.retry;
    assert retry[0].commentId == "c" && "c" in HeldIds(retry);
    forall id ensures id !in Elements(out.cursors.seenIds) {
      assert id in Elements(WAITING.seenIds) <==> id == "c";
    }
    SomeElement(out.cursors.seenIds);
  }

  lemma SomeElement<T>(s: seq<T>)
    ensures s != [] ==> Elements(s) != {}
  {
    if s != [] { assert s[0] in Elements(s); }
  }

  // With the inbox readable and nothing else asked for but held threads there, a sweep returns,
  // and collects the comment when it begins unseen.
  lemma ReadableCollects(now: int, cursors: Cursors, limited: bool)
    requires Distinct(cursors.seenIds) && cursors.retry == WAITING.retry
    requires "c" !in cursors.seenIds || !limited
    ensures var out := SweepOutcome(HOME, Readable(now), 0, cursors, limited);
            out.returned && "c" in BatchIds(out.batches)
  {
    var world := Readable(now);
    var held := HeldNow(cursors, limited);
    var rs := AllRequests(HOME, world, 0, cursors, limited);
    var p := Begin(cursors, limited);
    ReadableRequests(now, cursors, limited);
    RetryIsOne();
    assert HeldIds(held) == if limited then {} else {"c"} by {
      if !limited { assert held[0].commentId == "c"; }
    }
    BeginSound(cursors, limited);
    var base := Elements(cursors.seenIds) - HeldIds(held);
    assert "c" !in Elements(p.g.seen);
    assert Stands(world, ThreadOf(INBOX), ASKED);
    FirstIsInbox(rs);
    Coverage(HOME, world, p, rs, ThreadOf(INBOX), ASKED, base);
    assert ASKED in RowsOf(world.threads[ThreadOf(INBOX)], "inbox");
    assert One(ASKED.typed[0], ASKED, INBOX).verb == "work";
  }

  lemma RetryIsOne()
    ensures RetryThreads(WAITING.retry) == WAITING.retry
  {
    RetryThreadsIdempotent(WAITING.retry);
  }

  const ASK_INBOX := Request(INBOX, None, false)

  // Every request after the first is for the inbox's own thread again.
  lemma ReadableRequests(now: int, cursors: Cursors, limited: bool)
    requires cursors.retry == WAITING.retry
    ensures var rs := AllRequests(HOME, Readable(now), 0, cursors, limited);
            && rs != [] && rs[0] == ASK_INBOX && (forall r :: r in rs ==> ThreadOf(r.place) == ThreadOf(INBOX))
            && !Requests(HOME, Readable(now), Begin(cursors, limited), rs).raised
  {
    RetryIsOne();
    var rs := AllRequests(HOME, Readable(now), 0, cursors, limited);
    assert rs[0] == ASK_INBOX;
    forall r | r in rs ensures ThreadOf(r.place) == ThreadOf(INBOX) {
      if r in HeldRequests(HeldNow(cursors, limited)) {
        var k :| 0 <= k < |HeldNow(cursors, limited)| && HeldRequests(HeldNow(cursors, limited))[k] == r;
      }
    }
    NoneRaises(Readable(now), Begin(cursors, limited), rs);
  }

  lemma {:induction false} NoneRaises(world: World, p: Progress, rs: seq<Request>)
    requires !p.raised && forall r :: r in rs ==> ThreadOf(r.place) in world.threads
    ensures !Requests(HOME, world, p, rs).raised
  {
    hide Rows;
    if rs != [] {
      assert rs[|rs| - 1] in rs;
      NoneRaises(world, p, rs[..|rs| - 1]);
    }
  }

  lemma {:induction false} FirstIsInbox(rs: seq<Request>)
    requires rs != [] && rs[0] == ASK_INBOX && forall r :: r in rs ==> ThreadOf(r.place) == ThreadOf(INBOX)
    ensures FirstFor(rs, ThreadOf(INBOX)) == Some(ASK_INBOX)
  {
    if |rs| > 1 {
      FirstIsInbox(rs[..|rs| - 1]);
    } else {
      assert FirstFor(rs[..0], ThreadOf(INBOX)) == None;
    }
  }

  lemma {:induction false} AllWellHoldsNone(retry: seq<Held>, groups: seq<Batch>)
    ensures var t := RunGroups(HOME, AllWell(), retry, groups);
            t.going && t.retry == retry && |t.fates| == |groups| && forall k :: 0 <= k < |groups| ==> t.fates[k].Run?
  {
    if groups != [] {
      AllWellHoldsNone(retry, groups[..|groups| - 1]);
      var g := groups[|groups| - 1];
      if g != [] { ActedBounds(|g|, AllWell(), RunGroups(HOME, AllWell(), retry, groups[..|groups| - 1]).next, 0); }
    }
  }

  lemma AllWellRuns(l: Log)
    requires l.out.returned && l.tally == RunGroups(HOME, AllWell(), l.out.cursors.retry, l.out.batches)
    ensures RanIn(l) == CollectedIn(l) && CursorsAfter(l).retry == l.out.cursors.retry
  {
    AllWellHoldsNone(l.out.cursors.retry, l.out.batches);
    assert HeldBackIn(l) == {} && l.out.batches[..|l.tally.fates|] == l.out.batches;
  }

  function LogOf(world: World, cursors: Cursors, limited: bool): Log {
    var out := SweepOutcome(HOME, world, 0, cursors, limited);
    Log(cursors, out, RunGroups(HOME, AllWell(), out.cursors.retry, out.batches))
  }

  lemma AfterTheRaise()
    ensures var l := LogOf(Shut(0), WAITING, false);
            !l.out.returned && CursorsAfter(l).seenIds == [] && CursorsAfter(l).retry == WAITING.retry
  {
    ShutRaises();
  }

  lemma UnderTheLimit(before: Cursors)
    requires before.seenIds == [] && before.retry == WAITING.retry
    ensures var l := LogOf(Readable(1), before, true);
            && l.out.returned && "c" in RanIn(l)
            && CursorsAfter(l).retry == WAITING.retry && Distinct(CursorsAfter(l).seenIds)
  {
    var l := LogOf(Readable(1), before, true);
    ReadableCollects(1, before, true);
    hide SweepOutcome, RunGroups;
    AllWellRuns(l);
    LimitedKeepsEntries(Readable(1), before);
    OutcomeSound(HOME, Readable(1), 0, before, true);
    CollectedIs(l, "c");
  }

  lemma AfterTheLimit(before: Cursors)
    requires Distinct(before.seenIds) && before.retry == WAITING.retry
    ensures var l := LogOf(Readable(2), before, false);
            l.out.returned && "c" in RanIn(l)
  {
    var l := LogOf(Readable(2), before, false);
    ReadableCollects(2, before, false);
    hide SweepOutcome, RunGroups;
    AllWellRuns(l);
    CollectedIs(l, "c");
  }

  lemma WaitingIsSeen()
    ensures Settled(WAITING, {}) && HeldSeen(WAITING) && HeldIds(WAITING.retry) == {"c"}
  {
    assert WAITING.retry[0].commentId == "c" && WAITING.seenIds[0] == "c";
    assert HeldIds(WAITING.retry) == {"c"} && Elements(WAITING.seenIds) == {"c"};
    assert WAITING.retry[1..] == [] && HeldIds([]) == {};
  }

  // The run AtMostOnce leaves out: a sweep raises at the inbox with a comment held; the next
  // begins under the stored limit and runs the comment, which it still holds; the one after the
  // limit runs it again.
  lemma RaiseRunsItTwice() returns (run: seq<Step>, logs: seq<Log>)
    ensures |run| == |logs| == 3 && IsRun(HOME, run, logs)
    ensures Settled(logs[0].before, {}) && HeldSeen(logs[0].before)
    ensures !logs[0].out.returned && !run[0].limited && run[1].limited && !HeldSeen(logs[1].before)
    ensures "c" in RanIn(logs[1]) && "c" in RanIn(logs[2])
  {
    hide SweepOutcome, RunGroups, RanIn, CursorsAfter, Settled;
    var first := LogOf(Shut(0), WAITING, false);
    var second := LogOf(Readable(1), CursorsAfter(first), true);
    var third := LogOf(Readable(2), CursorsAfter(second), false);
    AfterTheRaise();
    UnderTheLimit(CursorsAfter(first));
    AfterTheLimit(CursorsAfter(second));
    WaitingIsSeen();
    run := [Step(Shut(0), 0, AllWell(), false, None), Step(Readable(1), 0, AllWell(), true, None),
        Step(Readable(2), 0, AllWell(), false, None)];
    logs := [first, second, third];
    assert "c" in HeldIds(second.before.retry) && second.before.seenIds == [];
  }

  lemma LimitedKeepsEntries(world: World, cursors: Cursors)
    requires cursors.retry == WAITING.retry && SweepOutcome(HOME, world, 0, cursors, true).returned
    ensures SweepOutcome(HOME, world, 0, cursors, true).cursors.retry == WAITING.retry
  {
    RetryIsOne();
    assert HeldIds([]) == {};
    NoneReleased(RetryThreads(cursors.retry));
  }
}
