// Two promises of the sweep: held comments come back, and the feed's windows leave no gap.
module SweepPromises {
  import opened Prelude
  import opened Strings
  import opened Ledgers
  import opened Keywords
  import opened SweepCoverage
  import opened SweepRuns

  // The request that decides a thread is the first for it, so at or before any other.
  lemma {:induction false} FirstForIndex(rs: seq<Request>, t: Thread, k: nat) returns (i: nat)
    requires k < |rs| && ThreadOf(rs[k].place) == t
    ensures i <= k && FirstFor(rs, t) == Some(rs[i]) && ThreadOf(rs[i].place) == t
  {
    var front := rs[..|rs| - 1];
    if k < |front| {
      i := FirstForIndex(front, t, k);
    } else if FirstFor(front, t).Some? {
      i := FirstForAt(front, t);
    } else {
      i := k;
    }
  }

  lemma {:induction false} FirstForAt(rs: seq<Request>, t: Thread) returns (i: nat)
    requires FirstFor(rs, t).Some?
    ensures i < |rs| && FirstFor(rs, t) == Some(rs[i]) && ThreadOf(rs[i].place) == t
  {
    var front := rs[..|rs| - 1];
    if FirstFor(front, t).Some? {
      i := FirstForAt(front, t);
    } else {
      i := |rs| - 1;
    }
  }

  // Every request a sweep makes for the thread lists the comment.
  ghost predicate ListedBy(world: World, rs: seq<Request>, t: Thread, c: Comment) {
    t in world.threads && forall r :: r in rs && ThreadOf(r.place) == t ==>
        c in RowsOf(world.threads[t], r.place.surface)
  }

  lemma AnsweredAlike(cfg: Config, a: Where, b: Where, c: Comment)
    requires ThreadOf(a) == ThreadOf(b)
    ensures AnsweredByAck(cfg, a, c) == AnsweredByAck(cfg, b, c)
  {
    forall k | 0 <= k < |c.typed| ensures One(c.typed[k], c, a).verb == One(c.typed[k], c, b).verb {}
  }

  // Up to the k-th request, none for the thread is bounded later than the stamp.
  ghost predicate NoneLater(rs: seq<Request>, k: nat, t: Thread, stamp: Option<int>)
    requires k < |rs|
  {
    forall i :: 0 <= i <= k && ThreadOf(rs[i].place) == t ==> Within(rs[i].bound, stamp)
  }

  // A sweep reads a comment's thread from early enough for it when any request does, bar a
  // shadowing one before it.
  lemma ReachedBy(cfg: Config, world: World, thread: int, cursors: Cursors, limited: bool, t: Thread, c: Comment,
                  k: nat)
    requires Distinct(cursors.seenIds) && SweepOutcome(cfg, world, thread, cursors, limited).returned
    requires Stands(world, t, c) && Heeded(cfg, c)
    requires c.id in HeldIds(HeldNow(cursors, limited)) || c.id !in cursors.seenIds
    requires var rs := AllRequests(cfg, world, thread, cursors, limited);
             k < |rs| && ThreadOf(rs[k].place) == t && ListedBy(world, rs, t, c) && NoneLater(rs, k, t, Stamp(c))
    ensures var rs := AllRequests(cfg, world, thread, cursors, limited);
            var out := SweepOutcome(cfg, world, thread, cursors, limited);
            && c.id in out.cursors.seenIds
            && Distinct(BatchIds(out.batches))
            && (c.id in BatchIds(out.batches) <==> !AnsweredByAck(cfg, rs[k].place, c))
  {
    var rs := AllRequests(cfg, world, thread, cursors, limited);
    var base := Elements(cursors.seenIds) - HeldIds(HeldNow(cursors, limited));
    BeginSound(cursors, limited);
    assert c.id !in Elements(Begin(cursors, limited).g.seen);
    Coverage(cfg, world, Begin(cursors, limited), rs, t, c, base);
    var i := FirstForIndex(rs, t, k);
    AnsweredAlike(cfg, rs[i].place, rs[k].place, c);
  }

  // ---- held comments come back ----

  // The entry is the comment's own: from when the comment was posted.
  ghost predicate EntryFor(e: Held, c: Comment) {
    e.commentId == c.id && e.since == c.posted && DatedInOrder(c)
  }

  // GitHub never dates a comment's update before its posting.
  ghost predicate DatedInOrder(c: Comment) {
    c.posted.Some? && c.updated.Some? ==> c.posted.value <= c.updated.value
  }

  // No request up to a held entry's own is bounded later than the entry.
  lemma HeldBound(cfg: Config, world: World, thread: int, held: seq<Held>, n: nat, i: nat, stamp: Option<int>)
    requires EarliestFirst(held) && n < |held| && Within(held[n].since, stamp)
    requires i <= |InboxRequests(cfg)| + n
    ensures var rs := EarlyRequests(cfg, world, thread, held);
            |InboxRequests(cfg)| + n < |rs| && rs[|InboxRequests(cfg)| + n] == HeldRequest(held[n])
                && Within(rs[i].bound, stamp)
  {
    var m := |InboxRequests(cfg)|;
    var rs := EarlyRequests(cfg, world, thread, held);
    if i < m {
      assert rs[i] == InboxRequests(cfg)[i];
    } else {
      assert rs[i] == HeldRequest(held[i - m]);
      if i - m < n { assert EarlierOrSame(held[i - m], held[n]); }
    }
  }

  lemma HeldPlace(retry: seq<Held>, e: Held) returns (n: nat)
    requires e in retry
    ensures EarliestFirst(RetryThreads(retry)) && n < |RetryThreads(retry)| && RetryThreads(retry)[n] == e
  {
    RetryThreadsSorted(retry);
    assert e in multiset(RetryThreads(retry));
    n :| 0 <= n < |RetryThreads(retry)| && RetryThreads(retry)[n] == e;
  }

  lemma HeldReaches(cfg: Config, world: World, thread: int, retry: seq<Held>, e: Held, rest: seq<Request>,
                    stamp: Option<int>) returns (k: nat)
    requires e in retry && Within(e.since, stamp)
    ensures var rs := EarlyRequests(cfg, world, thread, RetryThreads(retry)) + rest;
            k < |rs| && rs[k] == HeldRequest(e) && NoneLater(rs, k, ThreadOf(HeldRequest(e).place), stamp)
  {
    var held := RetryThreads(retry);
    var early := EarlyRequests(cfg, world, thread, held);
    var n := HeldPlace(retry, e);
    k := |InboxRequests(cfg)| + n;
    HeldBound(cfg, world, thread, held, n, k, stamp);
    forall i | 0 <= i <= k ensures Within((early + rest)[i].bound, stamp) {
      HeldBound(cfg, world, thread, held, n, i, stamp);
      assert (early + rest)[i] == early[i];
    }
  }

  lemma HeldEntryReleased(cfg: Config, world: World, thread: int, cursors: Cursors, e: Held)
    requires e in cursors.retry && SweepOutcome(cfg, world, thread, cursors, false).returned
    ensures e.commentId in HeldIds(HeldNow(cursors, false))
    ensures e.commentId !in HeldIds(SweepOutcome(cfg, world, thread, cursors, false).cursors.retry)
  {
    RetryKeepsIds(cursors.retry);
    NotReleasedHolds(RetryThreads(cursors.retry), HeldIds(RetryThreads(cursors.retry)));
  }

  // In a sweep that returns with no stored limit, a held comment whose thread reads, that still
  // parses and is authorised, is collected once, unless `ack` has answered it, and its entry is
  // released: even when several entries share the thread, for they are read earliest first and
  // the inbox unbounded.
  lemma HeldCommentsComeBack(cfg: Config, world: World, thread: int, cursors: Cursors, e: Held, c: Comment)
    requires Distinct(cursors.seenIds) && SweepOutcome(cfg, world, thread, cursors, false).returned
    requires e in cursors.retry && EntryFor(e, c)
    requires Stands(world, ThreadOf(HeldRequest(e).place), c) && Heeded(cfg, c)
    requires ListedBy(world, AllRequests(cfg, world, thread, cursors, false), ThreadOf(HeldRequest(e).place), c)
    ensures var out := SweepOutcome(cfg, world, thread, cursors, false);
            && Distinct(BatchIds(out.batches))
            && (c.id in BatchIds(out.batches) <==> !AnsweredByAck(cfg, HeldRequest(e).place, c))
            && e.commentId !in HeldIds(out.cursors.retry)
  {
    HeldEntryReleased(cfg, world, thread, cursors, e);
    var k := HeldReaches(cfg, world, thread, cursors.retry, e,
        FeedOrNone(cfg, world, Since(cursors.lastSeen, world.now)), Stamp(c));
    ReachedBy(cfg, world, thread, cursors, false, ThreadOf(HeldRequest(e).place), c, k);
  }

  // ---- and do not ----

  // No thread that reads lists a comment of that id.
  ghost predicate Unlisted(world: World, id: string) {
    forall t, k :: t in world.threads && 0 <= k < |AllRows(world, t)| ==> AllRows(world, t)[k].id != id
  }

  function AllRows(world: World, t: Thread): seq<Comment>
    requires t in world.threads
  {
    world.threads[t].comments + world.threads[t].reviews
  }

  ghost predicate Unheard(g: Gathered, id: string) {
    id !in g.seen && id !in BatchIds(g.batches)
  }

  lemma {:induction false} RowsLeave(cfg: Config, place: Where, bound: Option<int>, g: Gathered, rows: seq<Comment>,
                                     id: string)
    requires Unheard(g, id) && forall k :: 0 <= k < |rows| ==> rows[k].id != id
    ensures Unheard(Rows(cfg, place, bound, g, rows), id)
  {
    hide Within, OneRow, Unheard;
    if rows != [] {
      var front, c := rows[..|rows| - 1], rows[|rows| - 1];
      RowsLeave(cfg, place, bound, g, front, id);
      OneRowLeaves(cfg, place, Rows(cfg, place, bound, g, front), c, id);
    }
  }

  lemma OneRowLeaves(cfg: Config, place: Where, g: Gathered, c: Comment, id: string)
    requires Unheard(g, id) && c.id != id
    ensures Unheard(OneRow(cfg, place, g, c), id)
  {
    hide AnsweredByAck, ByMachine, DenialsOf;
    if c.typed != [] {
      var b := CommandsOf(c.typed, c, place);
      assert BatchIds(g.batches + [b]) == BatchIds(g.batches) + [CommentOf(b)];
    }
  }

  lemma {:induction false} RequestsLeave(cfg: Config, world: World, p: Progress, rs: seq<Request>, id: string)
    requires Unheard(p.g, id) && Unlisted(world, id)
    ensures Unheard(Requests(cfg, world, p, rs).g, id)
  {
    hide Rows, Unheard;
    if rs != [] {
      var front, r := rs[..|rs| - 1], rs[|rs| - 1];
      RequestsLeave(cfg, world, p, front, id);
      var q, t := Requests(cfg, world, p, front), ThreadOf(r.place);
      if t in world.threads {
        RowsAreListed(world, t, r.place.surface, id);
        RowsLeave(cfg, r.place, r.bound, q.g, RowsOf(world.threads[t], r.place.surface), id);
      }
    }
  }

  lemma RowsAreListed(world: World, t: Thread, surface: string, id: string)
    requires t in world.threads && Unlisted(world, id)
    ensures var rows := RowsOf(world.threads[t], surface); forall k :: 0 <= k < |rows| ==> rows[k].id != id
  {
    var rows, all := RowsOf(world.threads[t], surface), AllRows(world, t);
    assert |rows| <= |all| && rows == all[..|rows|];
  }

  // What an unreadable thread costs: a sweep that returns with no stored limit lets go of a held
  // comment no thread listed, as when its own did not read. It is not held, not seen and not
  // collected, so nothing but a feed that names it brings it back after the reset.
  lemma UnreadHeldIsDropped(cfg: Config, world: World, thread: int, cursors: Cursors, e: Held)
    requires Distinct(cursors.seenIds) && SweepOutcome(cfg, world, thread, cursors, false).returned
    requires e in cursors.retry && Unlisted(world, e.commentId)
    ensures var out := SweepOutcome(cfg, world, thread, cursors, false);
            && e.commentId !in HeldIds(out.cursors.retry)
            && e.commentId !in out.cursors.seenIds
            && e.commentId !in BatchIds(out.batches)
  {
    hide Unlisted, AllRequests;
    HeldEntryReleased(cfg, world, thread, cursors, e);
    BeginSound(cursors, false);
    var p := Begin(cursors, false);
    assert e.commentId !in Elements(p.g.seen) && p.g.batches == [];
    assert Unheard(p.g, e.commentId);
    RequestsLeave(cfg, world, p, AllRequests(cfg, world, thread, cursors, false), e.commentId);
  }

  // ---- no gap in the feed ----

  // The sweep's feed came, and it returned.
  predicate Fed(run: seq<Step>, logs: seq<Log>, j: nat)
    requires j < |run| == |logs|
  {
    run[j].world.feed.Some? && logs[j].out.returned
  }

  // Each sweep hands the next one its own time for a cursor when its feed came and it returned,
  // and the cursor it had when not.
  ghost predicate CursorMoves(run: seq<Step>, logs: seq<Log>, k: nat)
    requires 0 < k < |run| == |logs|
  {
    logs[k].before.lastSeen == if Fed(run, logs, k - 1) then Some(run[k - 1].world.now) else logs[k - 1].before.lastSeen
  }

  lemma CursorsMove(cfg: Config, run: seq<Step>, logs: seq<Log>)
    requires |run| == |logs| && IsRun(cfg, run, logs)
    ensures forall k :: 0 < k < |run| ==> CursorMoves(run, logs, k)
  {
    forall k | 0 < k < |run| ensures CursorMoves(run, logs, k) {
      assert Happened(cfg, run[k - 1], logs[k - 1]) && Follows(logs, k);
    }
  }

  // Before the k-th sweep the cursor is older than `t`, if every feed so far came before `t`;
  // and it is set as soon as any feed has come.
  lemma {:induction false} CursorIsLastFeed(run: seq<Step>, logs: seq<Log>, k: nat, t: int)
    requires k < |run| == |logs| && forall j :: 0 < j < |run| ==> CursorMoves(run, logs, j)
    requires logs[0].before.lastSeen.Some? ==> logs[0].before.lastSeen.value < t
    requires forall j :: 0 <= j < k && Fed(run, logs, j) ==> run[j].world.now < t
    ensures logs[k].before.lastSeen.Some? ==> logs[k].before.lastSeen.value < t
    ensures logs[k].before.lastSeen.Some? <==>
              logs[0].before.lastSeen.Some? || exists j :: 0 <= j < k && Fed(run, logs, j)
  {
    if k > 0 {
      CursorIsLastFeed(run, logs, k - 1, t);
      assert CursorMoves(run, logs, k);
    }
  }

  // A comment stamped at `p` whose notification arrives by half an hour later is inside the
  // bound of the first sweep whose feed can hold it, however many sweeps before it lost their feed
  // or raised, once any feed has come; until one has, exactly when it is inside that sweep's own lookback.
  lemma NoGapInTheFeed(cfg: Config, run: seq<Step>, logs: seq<Log>, k: nat, p: int, arrives: int)
    requires k < |run| == |logs| && IsRun(cfg, run, logs)
    requires arrives <= p + 1800
    requires logs[0].before.lastSeen.Some? ==> logs[0].before.lastSeen.value < arrives
    requires forall j :: 0 <= j < k && Fed(run, logs, j) ==> run[j].world.now < arrives
    ensures var since := Since(logs[k].before.lastSeen, run[k].world.now);
            if logs[0].before.lastSeen.Some? || exists j :: 0 <= j < k && Fed(run, logs, j)
            then since <= p
            else since <= p <==> run[k].world.now - 3 * 3600 <= p
  {
    CursorsMove(cfg, run, logs);
    CursorIsLastFeed(run, logs, k, arrives);
  }

  lemma {:induction false} FeedRequestsBound(cfg: Config, notices: seq<Notice>, since: int, n: Notice, place: Where)
    returns (k: nat)
    requires n in notices && ThreadTarget(cfg, n) == Some(place)
    ensures k < |FeedRequests(cfg, notices, since)| && FeedRequests(cfg, notices, since)[k].place == place
    ensures forall r :: r in FeedRequests(cfg, notices, since) ==> r.bound == Some(since)
  {
    FeedBounds(cfg, notices, since);
    var front := notices[..|notices| - 1];
    if n in front {
      k := FeedRequestsBound(cfg, front, since, n, place);
    } else {
      assert notices == front + [notices[|notices| - 1]];
      k := |FeedRequests(cfg, front, since)|;
    }
  }

  lemma {:induction false} FeedBounds(cfg: Config, notices: seq<Notice>, since: int)
    ensures forall r :: r in FeedRequests(cfg, notices, since) ==> r.bound == Some(since)
  {
    if notices != [] {
      FeedBounds(cfg, notices[..|notices| - 1], since);
    }
  }

  lemma Unbounded(stamp: Option<int>)
    ensures Within(None, stamp)
  {}

  lemma FeedReaches(cfg: Config, world: World, thread: int, held: seq<Held>, since: int, n: Notice, place: Where,
                    stamp: Option<int>) returns (k: nat)
    requires world.feed.Some? && n in world.feed.value && ThreadTarget(cfg, n) == Some(place)
    requires Within(Some(since), stamp)
    requires forall h :: h in held && ThreadOf(HeldRequest(h).place) == ThreadOf(place) ==> Within(h.since, stamp)
    ensures var rs := EarlyRequests(cfg, world, thread, held) + FeedOrNone(cfg, world, since);
            k < |rs| && rs[k].place == place && NoneLater(rs, k, ThreadOf(place), stamp)
  {
    hide EarlyRequests, FeedRequests, Within;
    var early, feed := EarlyRequests(cfg, world, thread, held), FeedRequests(cfg, world.feed.value, since);
    var j := FeedRequestsBound(cfg, world.feed.value, since, n, place);
    k := |early| + j;
    var rs: seq<Request> := early + feed;
    forall i: nat | i <= k && ThreadOf(rs[i].place) == ThreadOf(place) ensures Within(rs[i].bound, stamp) {
      if i < |early| {
        EarlyBound(cfg, world, thread, held, i);
        Unbounded(stamp);
      } else {
        assert rs[i] == feed[i - |early|] && feed[i - |early|] in feed;
      }
    }
  }

  // And inside the bound is enough: a comment the feed names is seen after the sweep, and
  // collected unless `ack` has answered it, if no held comment had its thread read from later.
  lemma TheFeedCollects(cfg: Config, world: World, thread: int, cursors: Cursors, limited: bool, n: Notice,
                        place: Where, c: Comment)
    requires Distinct(cursors.seenIds) && SweepOutcome(cfg, world, thread, cursors, limited).returned
    requires world.feed.Some? && n in world.feed.value && ThreadTarget(cfg, n) == Some(place)
    requires Stands(world, ThreadOf(place), c) && Heeded(cfg, c) && c.id !in cursors.seenIds
    requires ListedBy(world, AllRequests(cfg, world, thread, cursors, limited), ThreadOf(place), c)
    requires Stamp(c).Some? && Since(cursors.lastSeen, world.now) <= Stamp(c).value
    requires forall h :: h in HeldNow(cursors, limited) && ThreadOf(HeldRequest(h).place) == ThreadOf(place) ==>
               Within(h.since, Stamp(c))
    ensures var out := SweepOutcome(cfg, world, thread, cursors, limited);
            && c.id in out.cursors.seenIds
            && (c.id in BatchIds(out.batches) <==> !AnsweredByAck(cfg, place, c))
  {
    var k := FeedReaches(cfg, world, thread, HeldNow(cursors, limited), Since(cursors.lastSeen, world.now), n, place,
        Stamp(c));
    ReachedBy(cfg, world, thread, cursors, limited, ThreadOf(place), c, k);
  }

  lemma {:induction false} RunDistinct(cfg: Config, run: seq<Step>, logs: seq<Log>, k: nat)
    requires k < |run| == |logs| && IsRun(cfg, run, logs)
    requires Distinct(logs[0].before.seenIds) && HeldOnce(logs[0].before.retry)
    ensures Distinct(logs[k].before.seenIds) && HeldOnce(logs[k].before.retry)
  {
    hide Happened, CursorsAfter, Distinct, HeldOnce, CollectedIn, RanIn, DoneIn;
    if k > 0 {
      RunDistinct(cfg, run, logs, k - 1);
      assert Happened(cfg, run[k - 1], logs[k - 1]) && Follows(logs, k);
      StepFacts(cfg, run[k - 1], logs[k - 1]);
    }
  }

  // A feed has come by the k-th sweep of the run, and none that came was late enough to name what
  // is told at `arrives`.
  ghost predicate FedBefore(run: seq<Step>, logs: seq<Log>, k: nat)
    requires k < |run| == |logs|
  {
    logs[0].before.lastSeen.Some? || exists j :: 0 <= j < k && Fed(run, logs, j)
  }

  ghost predicate NoneToldYet(run: seq<Step>, logs: seq<Log>, k: nat, arrives: int)
    requires k < |run| == |logs|
  {
    && (logs[0].before.lastSeen.Some? ==> logs[0].before.lastSeen.value < arrives)
    && forall j :: 0 <= j < k && Fed(run, logs, j) ==> run[j].world.now < arrives
  }

  // The two together, over a run: the first sweep whose feed names a comment, told of at most half
  // an hour late, collects it unless `ack` has answered it, whichever sweeps before lost their feed
  // or raised; once any feed has come, or when the comment is inside that sweep's own lookback.
  lemma FirstFeedCollects(cfg: Config, run: seq<Step>, logs: seq<Log>, k: nat, n: Notice, place: Where, c: Comment,
                          arrives: int)
    requires k < |run| == |logs| && IsRun(cfg, run, logs)
    requires Distinct(logs[0].before.seenIds) && HeldOnce(logs[0].before.retry)
    requires Stamp(c).Some? && arrives <= Stamp(c).value + 1800 && NoneToldYet(run, logs, k, arrives)
    requires FedBefore(run, logs, k) || run[k].world.now - 3 * 3600 <= Stamp(c).value
    requires var world := run[k].world;
             && logs[k].out.returned && world.feed.Some? && n in world.feed.value && ThreadTarget(cfg, n) == Some(place)
             && Stands(world, ThreadOf(place), c) && Heeded(cfg, c) && c.id !in logs[k].before.seenIds
             && ListedBy(world, AllRequests(cfg, world, run[k].thread, logs[k].before, run[k].limited),
                 ThreadOf(place), c)
    requires forall h ::
               h in HeldNow(logs[k].before, run[k].limited) && ThreadOf(HeldRequest(h).place) == ThreadOf(place) ==>
                 Within(h.since, Stamp(c))
    ensures c.id in logs[k].out.cursors.seenIds
    ensures c.id in CollectedIn(logs[k]) <==> !AnsweredByAck(cfg, place, c)
  {
    hide Stands, ListedBy, AllRequests, Heeded, AnsweredByAck, SweepOutcome, HeldNow;
    RunDistinct(cfg, run, logs, k);
    NoGapInTheFeed(cfg, run, logs, k, Stamp(c).value, arrives);
    var s, before := run[k], logs[k].before;
    assert Happened(cfg, s, logs[k]);
    TheFeedCollects(cfg, s.world, s.thread, before, s.limited, n, place, c);
  }

  // Only the held comments' threads are read from a bound before the feed.
  lemma EarlyBound(cfg: Config, world: World, thread: int, held: seq<Held>, i: nat)
    requires i < |EarlyRequests(cfg, world, thread, held)|
    ensures var r := EarlyRequests(cfg, world, thread, held)[i];
            r.bound.None? || exists h :: h in held && r == HeldRequest(h)
  {
    var m := |InboxRequests(cfg)|;
    if m <= i < m + |held| {
      assert EarlyRequests(cfg, world, thread, held)[i] == HeldRequest(held[i - m]);
      assert held[i - m] in held;
    }
  }

  // A first feed that fails costs what only its own lookback held: a comment an hour old at the
  // first sweep is out of bound at the second, four hours later.
  lemma FailedFirstFeedLosesTheHour(cfg: Config, run: seq<Step>, logs: seq<Log>)
    requires |run| == |logs| == 2 && IsRun(cfg, run, logs) && logs[0].before == EmptyCursors
    requires run[0].world.feed.None? && run[1].world.now == run[0].world.now + 4 * 3600
    ensures var p := run[0].world.now - 3600;
            Since(logs[0].before.lastSeen, run[0].world.now) <= p < Since(logs[1].before.lastSeen, run[1].world.now)
  {
    CursorsMove(cfg, run, logs);
    assert CursorMoves(run, logs, 1);
  }

  // What a raise costs: a sweep that raises at the inbox has already unseen every held comment, and
  // it still holds them.
  lemma ARaiseUnseesHeld(cfg: Config, world: World, thread: int, cursors: Cursors)
    requires Distinct(cursors.seenIds)
    requires cfg.inbox != 0 && ThreadOf(Where(cfg.selfRepo, "inbox", cfg.inbox)) !in world.threads
    ensures var out := SweepOutcome(cfg, world, thread, cursors, false);
            && !out.returned && out.cursors.retry == cursors.retry
            && Elements(out.cursors.seenIds) == Elements(cursors.seenIds) - HeldIds(cursors.retry)
  {
    var rs, p := AllRequests(cfg, world, thread, cursors, false), Begin(cursors, false);
    assert rs[..1] == [rs[0]] && rs[0] == Request(Where(cfg.selfRepo, "inbox", cfg.inbox), None, false);
    assert Requests(cfg, world, p, rs[..1]) == OneRequest(cfg, world, p, rs[0]) by {
      assert rs[..1][..0] == [];
    }
    RaisedStays(cfg, world, p, rs, 1);
    RetryKeepsIds(cursors.retry);
    BeginSound(cursors, false);
  }
}
