// What one sweep collects: exactly the rows the first request for their thread reaches.
module SweepCoverage {
  import opened Prelude
  import opened Strings
  import opened Ledgers
  import opened Keywords

  // The comment a batch's commands came from.
  function CommentOf(b: Batch): string {
    if b == [] then "" else b[0].commentId
  }

  function BatchIds(batches: seq<Batch>): seq<string> {
    seq(|batches|, i requires 0 <= i < |batches| => CommentOf(batches[i]))
  }

  // Every batch is one comment's commands.
  ghost predicate OneComment(b: Batch) {
    b != [] && forall k :: 0 <= k < |b| ==> b[k].commentId == b[0].commentId
  }

  ghost predicate WellBatched(batches: seq<Batch>) {
    (forall b :: b in batches ==> OneComment(b)) && Distinct(BatchIds(batches))
  }

  // What reading keeps, from the ids seen when it began.
  ghost predicate Sound(g: Gathered, base: set<string>) {
    && Distinct(g.seen) && base <= Elements(g.seen)
    && WellBatched(g.batches)
    && forall id :: id in BatchIds(g.batches) ==> id in g.seen && id !in base
  }

  lemma OneRowSound(cfg: Config, place: Where, g: Gathered, c: Comment, base: set<string>)
    requires Sound(g, base)
    ensures Sound(OneRow(cfg, place, g, c), base)
    ensures Elements(g.seen) <= Elements(OneRow(cfg, place, g, c).seen)
  {
    var h := OneRow(cfg, place, g, c);
    if h.batches != g.batches {
      var b := CommandsOf(c.typed, c, place);
      assert h.batches == g.batches + [b];
      assert BatchIds(h.batches) == BatchIds(g.batches) + [c.id];
    }
  }

  lemma {:induction false} RowsSound(cfg: Config, place: Where, bound: Option<int>, g: Gathered, rows: seq<Comment>,
                                     base: set<string>)
    requires Sound(g, base)
    ensures Sound(Rows(cfg, place, bound, g, rows), base)
    ensures Elements(g.seen) <= Elements(Rows(cfg, place, bound, g, rows).seen)
  {
    if rows != [] {
      RowsSound(cfg, place, bound, g, rows[..|rows| - 1], base);
      OneRowSound(cfg, place, Rows(cfg, place, bound, g, rows[..|rows| - 1]), rows[|rows| - 1], base);
    }
  }

  lemma {:induction false} RequestsSound(cfg: Config, world: World, p: Progress, rs: seq<Request>, base: set<string>)
    requires Sound(p.g, base)
    ensures Sound(Requests(cfg, world, p, rs).g, base)
  {
    if rs != [] {
      RequestsSound(cfg, world, p, rs[..|rs| - 1], base);
      var q, r := Requests(cfg, world, p, rs[..|rs| - 1]), rs[|rs| - 1];
      var t := ThreadOf(r.place);
      if t in world.threads {
        RowsSound(cfg, r.place, r.bound, q.g, RowsOf(world.threads[t], r.place.surface), base);
      }
    }
  }

  // ---- which rows are reached ----

  // The request that decides what is read of thread `t`.
  function FirstFor(rs: seq<Request>, t: Thread): Option<Request> {
    if rs == [] then None
    else
      var front := FirstFor(rs[..|rs| - 1], t);
      if front.Some? then front
      else if ThreadOf(rs[|rs| - 1].place) == t then Some(rs[|rs| - 1])
      else None
  }

  // `c` is the only comment of its id, and it stands in thread `t`.
  ghost predicate Stands(world: World, t: Thread, c: Comment) {
    && t in world.threads
    && forall u, row ::
         u in world.threads
         && (row in world.threads[u].comments || row in world.threads[u].reviews)
         && row.id == c.id ==>
           u == t && row == c
  }

  // The request reaches the row: it lists it, and not from too late.
  ghost predicate Reaches(world: World, r: Request, t: Thread, c: Comment)
    requires t in world.threads
  {
    c in RowsOf(world.threads[t], r.place.surface) && Within(r.bound, Stamp(c))
  }

  ghost predicate Collected(g: Gathered, id: string) {
    id in BatchIds(g.batches)
  }

  lemma OneRowReached(cfg: Config, place: Where, g: Gathered, row: Comment, c: Comment, base: set<string>)
    requires Sound(g, base) && (row.id == c.id ==> row == c)
    ensures Sound(OneRow(cfg, place, g, row), base)
    ensures c.id in OneRow(cfg, place, g, row).seen <==> c.id in g.seen || (row == c && Heeded(cfg, c))
    ensures Collected(OneRow(cfg, place, g, row), c.id) <==>
              Collected(g, c.id) || (row == c && c.id !in g.seen && Heeded(cfg, c) && !AnsweredByAck(cfg, place, c))
  {
    OneRowSound(cfg, place, g, row, base);
    var h := OneRow(cfg, place, g, row);
    if h.batches != g.batches {
      assert BatchIds(h.batches) == BatchIds(g.batches) + [row.id];
    }
  }

  lemma {:induction false} RowsReached(cfg: Config, place: Where, bound: Option<int>, g: Gathered, rows: seq<Comment>,
                                       c: Comment, base: set<string>)
    requires Sound(g, base) && forall row :: row in rows && row.id == c.id ==> row == c
    ensures var h := Rows(cfg, place, bound, g, rows);
            && Sound(h, base)
            && (c.id in h.seen <==> c.id in g.seen || (c in rows && Within(bound, Stamp(c)) && Heeded(cfg, c)))
            && (Collected(h, c.id) <==>
                Collected(g, c.id) || (c.id !in g.seen && c in rows && Within(bound, Stamp(c)) && Heeded(cfg, c)
                    && !AnsweredByAck(cfg, place, c)))
  {
    if rows != [] {
      var front, row := rows[..|rows| - 1], rows[|rows| - 1];
      assert rows == front + [row];
      RowsReached(cfg, place, bound, g, front, c, base);
      OneRowReached(cfg, place, Rows(cfg, place, bound, g, front), row, c, base);
    }
  }

  lemma {:induction false} ReadThreads(cfg: Config, world: World, p: Progress, rs: seq<Request>, t: Thread)
    requires t !in p.read && !p.raised && !Requests(cfg, world, p, rs).raised
    ensures t in Requests(cfg, world, p, rs).read <==> FirstFor(rs, t).Some?
    ensures FirstFor(rs, t).Some? ==> ThreadOf(FirstFor(rs, t).value.place) == t
  {
    if rs != [] {
      ReadThreads(cfg, world, p, rs[..|rs| - 1], t);
    }
  }

  // In a sweep that returns, a comment not yet seen is marked seen exactly when the first
  // request for its thread reaches it and it carries commands; and it is collected exactly when,
  // besides, `ack` has not answered it.
  lemma {:induction false} Coverage(cfg: Config, world: World, p: Progress, rs: seq<Request>, t: Thread, c: Comment,
                                    base: set<string>)
    requires Sound(p.g, base) && p.read == {} && !p.raised && !Requests(cfg, world, p, rs).raised
    requires Stands(world, t, c) && c.id !in p.g.seen
    ensures var g := Requests(cfg, world, p, rs).g;
            var first := FirstFor(rs, t);
            && Sound(g, base)
            && (c.id in g.seen <==> first.Some? && Reaches(world, first.value, t, c) && Heeded(cfg, c))
            && (Collected(g, c.id) <==>
                first.Some? && Reaches(world, first.value, t, c) && Heeded(cfg, c)
                    && !AnsweredByAck(cfg, first.value.place, c))
  {
    if rs == [] {
      assert c.id !in BatchIds(p.g.batches);
    } else {
      var front, r := rs[..|rs| - 1], rs[|rs| - 1];
      var q := Requests(cfg, world, p, front);
      Coverage(cfg, world, p, front, t, c, base);
      ReadThreads(cfg, world, p, front, t);
      var u := ThreadOf(r.place);
      ReadThreads(cfg, world, p, front, u);
      if u !in q.read && u in world.threads {
        var rows := RowsOf(world.threads[u], r.place.surface);
        forall row | row in rows && row.id == c.id ensures row == c && u == t {
          assert row in world.threads[u].comments || row in world.threads[u].reviews;
        }
        RowsReached(cfg, r.place, r.bound, q.g, rows, c, base);
      }
    }
  }

  // ---- the beginning of a sweep ----

  lemma {:induction false} UnseeAllElements(seen: seq<string>, held: seq<Held>)
    requires Distinct(seen)
    ensures Distinct(UnseeAll(seen, held))
    ensures Elements(UnseeAll(seen, held)) == Elements(seen) - HeldIds(held)
  {
    if held != [] {
      var front, h := held[..|held| - 1], held[|held| - 1];
      assert held == front + [h];
      UnseeAllElements(seen, front);
      WithoutElements(UnseeAll(seen, front), h.commentId);
      assert HeldIds(held) == HeldIds(front) + {h.commentId};
    } else {
      assert HeldIds(held) == {};
    }
  }

  // What a sweep begins from: the ids seen, less those whose comments it will read again.
  lemma BeginSound(cursors: Cursors, limited: bool)
    requires Distinct(cursors.seenIds)
    ensures var base := Elements(cursors.seenIds) - HeldIds(HeldNow(cursors, limited));
            Sound(Begin(cursors, limited).g, base) && Elements(Begin(cursors, limited).g.seen) == base
  {
    UnseeAllElements(cursors.seenIds, HeldNow(cursors, limited));
    assert BatchIds([]) == [];
  }
}
