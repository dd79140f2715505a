// The comment sweep of harness/keywords.py: which threads a sweep reads, from when, and which
// comments it collects.
module Keywords {
  import opened Prelude
  import opened Strings
  import opened RunWindow
  import opened Ledgers

  const OVERLAP := 30 * 60
  const FIRST_LOOKBACK := 3 * HOUR
  const STATUS := "status"
  const MAX_LEVEL := 3
  const DENIED := "__denied__"

  // ---- what a sweep is shown ----

  // One command typed in a comment: its verb, the word that stood for it, the level the word
  // needs, its arguments without the force flag, and whether the flag stood among them.
  datatype Typed = Typed(verb: string, word: string, needed: nat, args: string, force: bool)

  // A comment as read: its text already parsed, its author already judged against the trust
  // file. `answered` says `ack` left its reaction; instants are None where the field is absent.
  datatype Comment = Comment(
    id: string,
    login: string,
    authorised: bool,
    level: nat,
    typed: seq<Typed>,
    posted: Option<int>,
    updated: Option<int>,
    answered: bool)

  datatype Where = Where(repo: string, surface: string, number: int)

  // `noted` says the flag was there and refused, which the reply names.
  datatype Command = Command(
    verb: string,
    args: string,
    place: Where,
    commentId: string,
    actor: string,
    level: nat,
    force: bool,
    noted: bool,
    posted: Option<int>)

  type Batch = seq<Command>
  type Thread = (string, int)

  datatype Config = Config(selfRepo: string, upstreamRepo: string, inbox: int, machine: string)

  datatype View = View(comments: seq<Comment>, reviews: seq<Comment>)
  datatype Notice = Notice(repo: string, kind: string, number: Option<int>)

  // What GitHub answers during one sweep. A thread not in `threads` cannot be read; `named` is
  // whether the issue a comment event names is a pull request, None when it cannot be read;
  // `feed` is None when the notifications are refused.
  datatype World = World(
    now: int,
    named: Option<bool>,
    feed: Option<seq<Notice>>,
    threads: map<Thread, View>)

  function ThreadOf(place: Where): Thread {
    (Lower(place.repo), place.number)
  }

  predicate IsPull(surface: string) {
    surface == "proposal_pr" || surface == "delivery_pr"
  }

  function RowsOf(view: View, surface: string): seq<Comment> {
    view.comments + (if IsPull(surface) then view.reviews else [])
  }

  // `thread_target`
  function ThreadTarget(cfg: Config, n: Notice): Option<Where> {
    var onSelf := Lower(n.repo) == Lower(cfg.selfRepo);
    var onUpstream := Lower(n.repo) == Lower(cfg.upstreamRepo);
    if n.number.None? then None
    else if n.kind == "PullRequest" && onSelf then Some(Where(n.repo, "proposal_pr", n.number.value))
    else if n.kind == "PullRequest" && onUpstream then Some(Where(n.repo, "delivery_pr", n.number.value))
    else if n.kind == "Issue" && onSelf && cfg.inbox != 0 && n.number.value == cfg.inbox
        then Some(Where(n.repo, "inbox", n.number.value))
    else if n.kind == "Issue" && onSelf then Some(Where(n.repo, "issue", n.number.value))
    else if n.kind == "Issue" && onUpstream then Some(Where(n.repo, "product_issue", n.number.value))
    else None
  }

  // ---- one comment ----

  function Stamp(c: Comment): Option<int> {
    if c.updated.Some? then c.updated else c.posted
  }

  predicate Within(bound: Option<int>, stamp: Option<int>) {
    bound.None? || (stamp.Some? && bound.value <= stamp.value)
  }

  function Login(text: string): string {
    Lower(StripLeft(text, IsAt))
  }

  predicate ByMachine(cfg: Config, c: Comment) {
    cfg.machine != "" && Login(c.login) == Login(cfg.machine)
  }

  // The comment carries commands the sweep takes: a person's, trusted, with something parsed.
  predicate Heeded(cfg: Config, c: Comment) {
    !ByMachine(cfg, c) && c.authorised && c.typed != []
  }

  function DenialText(t: Typed, c: Comment): string {
    "/harness " + (if t.word != "" then t.word else t.verb) + " needs level " + Digits(t.needed)
    + "; @" + c.login + " is level " + Digits(c.level)
  }

  // `_one`: a command above its author's level becomes a refusal; the force flag is the top
  // level's alone, and without it the command still stands.
  function One(t: Typed, c: Comment, place: Where): Command {
    if c.level < t.needed
    then Command(DENIED, DenialText(t, c), place, c.id, c.login, c.level, false, false, c.posted)
    else Command(t.verb, t.args, place, c.id, c.login, c.level, t.force && c.level >= MAX_LEVEL,
                 t.force && c.level < MAX_LEVEL, c.posted)
  }

  function CommandsOf(typed: seq<Typed>, c: Comment, place: Where): (b: Batch)
    ensures |b| == |typed| && forall k :: 0 <= k < |b| ==> b[k] == One(typed[k], c, place)
  {
    if typed == [] then [] else [One(typed[0], c, place)] + CommandsOf(typed[1..], c, place)
  }

  function DenialsOf(typed: seq<Typed>, c: Comment, denied: map<string, int>): map<string, int> {
    if typed == [] then denied
    else DenialsOf(typed[1..], c, if c.level < typed[0].needed then Bump(denied, c.login) else denied)
  }

  // `ack` has answered the whole comment, on this repository, by itself.
  predicate AnsweredByAck(cfg: Config, place: Where, c: Comment) {
    && Lower(place.repo) == Lower(cfg.selfRepo)
    && (forall k :: 0 <= k < |c.typed| ==> One(c.typed[k], c, place).verb == STATUS)
    && c.answered
  }

  // What reading has gathered: the seen ids, the refusals counted, and each collected comment's
  // commands.
  datatype Gathered = Gathered(seen: seq<string>, denied: map<string, int>, batches: seq<Batch>)

  function OneRow(cfg: Config, place: Where, g: Gathered, c: Comment): Gathered {
    if c.id in g.seen || ByMachine(cfg, c) then g
    else if !c.authorised then g.(denied := Bump(g.denied, c.login))
    else if c.typed == [] then g
    else
      var marked := Gathered(g.seen + [c.id], DenialsOf(c.typed, c, g.denied), g.batches);
      if AnsweredByAck(cfg, place, c) then marked
      else marked.(batches := g.batches + [CommandsOf(c.typed, c, place)])
  }

  function Rows(cfg: Config, place: Where, bound: Option<int>, g: Gathered, rows: seq<Comment>): Gathered {
    if rows == [] then g
    else
      var front := Rows(cfg, place, bound, g, rows[..|rows| - 1]);
      var c := rows[|rows| - 1];
      if Within(bound, Stamp(c)) then OneRow(cfg, place, front, c) else front
  }

  // ---- one sweep ----

  // A thread to read, from when, and whether a failure to read it is survived.
  datatype Request = Request(place: Where, bound: Option<int>, guarded: bool)

  datatype Progress = Progress(g: Gathered, read: set<Thread>, raised: bool)

  function OneRequest(cfg: Config, world: World, p: Progress, r: Request): Progress {
    var t := ThreadOf(r.place);
    if p.raised || t in p.read then p
    else if t !in world.threads then Progress(p.g, p.read + {t}, !r.guarded)
    else Progress(Rows(cfg, r.place, r.bound, p.g, RowsOf(world.threads[t], r.place.surface)), p.read + {t}, false)
  }

  function Requests(cfg: Config, world: World, p: Progress, rs: seq<Request>): Progress {
    if rs == [] then p
    else OneRequest(cfg, world, Requests(cfg, world, p, rs[..|rs| - 1]), rs[|rs| - 1])
  }

  // `_overlap_since` and `_first_sweep_since`
  function Since(lastSeen: Option<int>, now: int): int {
    match lastSeen
    case Some(cursor) => cursor - OVERLAP
    case None => now - FIRST_LOOKBACK
  }

  function InboxRequests(cfg: Config): seq<Request> {
    if cfg.inbox != 0 then [Request(Where(cfg.selfRepo, "inbox", cfg.inbox), None, false)] else []
  }

  function HeldRequest(h: Held): Request {
    Request(Where(h.repo, h.surface, h.number), h.since, true)
  }

  function HeldRequests(held: seq<Held>): (rs: seq<Request>) {
    seq(|held|, i requires 0 <= i < |held| => HeldRequest(held[i]))
  }

  function NamedRequests(cfg: Config, world: World, thread: int): seq<Request> {
    if thread != 0 && thread != cfg.inbox && world.named.Some?
    then [Request(Where(cfg.selfRepo, if world.named.value then "proposal_pr" else "issue", thread), None, false)]
    else []
  }

  function FeedRequests(cfg: Config, notices: seq<Notice>, since: int): seq<Request> {
    if notices == [] then []
    else
      var front := FeedRequests(cfg, notices[..|notices| - 1], since);
      match ThreadTarget(cfg, notices[|notices| - 1])
      case Some(place) => front + [Request(place, Some(since), false)]
      case None => front
  }

  // The entries a sweep reads for the comments it holds: none while the limit stands.
  function HeldNow(cursors: Cursors, limited: bool): seq<Held> {
    if limited then [] else RetryThreads(cursors.retry)
  }

  function UnseeAll(seen: seq<string>, held: seq<Held>): seq<string> {
    if held == [] then seen else Without(UnseeAll(seen, held[..|held| - 1]), held[|held| - 1].commentId)
  }

  function EarlyRequests(cfg: Config, world: World, thread: int, held: seq<Held>): seq<Request> {
    InboxRequests(cfg) + HeldRequests(held) + NamedRequests(cfg, world, thread)
  }

  // Every thread one sweep asks for, in order.
  function AllRequests(cfg: Config, world: World, thread: int, cursors: Cursors, limited: bool): seq<Request> {
    EarlyRequests(cfg, world, thread, HeldNow(cursors, limited))
    + FeedOrNone(cfg, world, Since(cursors.lastSeen, world.now))
  }

  function Begin(cursors: Cursors, limited: bool): Progress {
    Progress(Gathered(UnseeAll(cursors.seenIds, HeldNow(cursors, limited)), cursors.denied, []), {}, false)
  }

  datatype Outcome = Outcome(returned: bool, cursors: Cursors, batches: seq<Batch>)

  // What a sweep leaves, whether it returns or raises at an unguarded read.
  function SweepOutcome(cfg: Config, world: World, thread: int, cursors: Cursors, limited: bool): Outcome {
    var p := Requests(cfg, world, Begin(cursors, limited), AllRequests(cfg, world, thread, cursors, limited));
    var marked := cursors.(seenIds := p.g.seen, denied := p.g.denied);
    if p.raised then Outcome(false, marked, [])
    else Outcome(true,
                 marked.(lastSeen := if world.feed.Some? then Some(world.now) else cursors.lastSeen,
                         retry := NotReleased(RetryThreads(cursors.retry), HeldIds(HeldNow(cursors, limited)))),
                 p.g.batches)
  }

  function Flatten(batches: seq<Batch>): seq<Command> {
    if batches == [] then [] else Flatten(batches[..|batches| - 1]) + batches[|batches| - 1]
  }

  // ---- the sweep itself ----

  // What one row does to what was gathered, case by case.
  lemma RowOf(cfg: Config, place: Where, g: Gathered, c: Comment)
    ensures c.id in g.seen || ByMachine(cfg, c) || (c.authorised && c.typed == []) ==> OneRow(cfg, place, g, c) == g
    ensures c.id !in g.seen && !ByMachine(cfg, c) && !c.authorised ==>
              OneRow(cfg, place, g, c) == g.(denied := Bump(g.denied, c.login))
    ensures c.id !in g.seen && !ByMachine(cfg, c) && c.authorised && c.typed != [] ==>
              OneRow(cfg, place, g, c)
              == Gathered(g.seen + [c.id], DenialsOf(c.typed, c, g.denied),
                     g.batches + if AnsweredByAck(cfg, place, c) then [] else [CommandsOf(c.typed, c, place)])
  {
    hide One, ByMachine, Bump, DenialsOf, CommandsOf, AnsweredByAck;
  }

  lemma FoundAll(cfg: Config, place: Where, c: Comment, found: Batch)
    requires |found| == |c.typed| && forall i :: 0 <= i < |found| ==> found[i] == One(c.typed[i], c, place)
    ensures found == CommandsOf(c.typed, c, place)
    ensures AnsweredByAck(cfg, place, c) <==>
              Lower(place.repo) == Lower(cfg.selfRepo) && (forall i :: 0 <= i < |found| ==> found[i].verb == STATUS)
              && c.answered
  {
    hide One, Lower, CommandsOf;
  }

  lemma DenialsStep(c: Comment, k: nat, denied: map<string, int>)
    requires k < |c.typed|
    ensures DenialsOf(c.typed[k..], c, denied)
         == DenialsOf(c.typed[k + 1..], c, if c.level < c.typed[k].needed then Bump(denied, c.login) else denied)
  {
    assert c.typed[k..][1..] == c.typed[k + 1..];
  }

  lemma NoDenials(c: Comment, denied: map<string, int>)
    ensures DenialsOf([], c, denied) == denied
  {}

  // `commands_from`, with the question `ack` has already settled.
  method CommandsFrom(ledger: Ledger, cfg: Config, place: Where, c: Comment, ghost g: Gathered) returns (found: Batch)
    requires ledger.Valid() && ledger.cursors.seenIds == g.seen && ledger.cursors.denied == g.denied
    modifies ledger`cursors
    ensures ledger.Valid()
    ensures ledger.cursors == old(ledger.cursors).(seenIds := OneRow(cfg, place, g, c).seen,
              denied := OneRow(cfg, place, g, c).denied)
    ensures OneRow(cfg, place, g, c).batches == g.batches + (if found == [] then [] else [found])
  {
    hide One, ByMachine, Lower, Bump, OneRow, DenialsOf, CommandsOf, AnsweredByAck, Ledger.Valid;
    RowOf(cfg, place, g, c);
    found := [];
    if c.id in ledger.cursors.seenIds {
      return;
    }
    if ByMachine(cfg, c) {
      return;
    }
    if !c.authorised {
      ledger.CountDenied(c.login);
      return;
    }
    if c.typed == [] {
      return;
    }
    ledger.MarkSeen(c.id);
    var k := 0;
    while k < |c.typed|
      invariant 0 <= k <= |c.typed|
      invariant ledger.Valid()
      invariant ledger.cursors == old(ledger.cursors).(seenIds := g.seen + [c.id], denied := ledger.cursors.denied)
      invariant DenialsOf(c.typed[k..], c, ledger.cursors.denied) == DenialsOf(c.typed, c, g.denied)
      invariant |found| == k && forall i :: 0 <= i < k ==> found[i] == One(c.typed[i], c, place)
    {
      DenialsStep(c, k, ledger.cursors.denied);
      if c.level < c.typed[k].needed {
        ledger.CountDenied(c.login);
      }
      found := found + [One(c.typed[k], c, place)];
      k := k + 1;
    }
    NoDenials(c, ledger.cursors.denied);
    assert c.typed[k..] == [] && c.typed[0..] == c.typed;
    FoundAll(cfg, place, c, found);
    if Lower(place.repo) == Lower(cfg.selfRepo) && (forall i :: 0 <= i < |found| ==> found[i].verb == STATUS)
        && c.answered {
      found := [];
    }
  }

  // The `read` inside `sweep`: one thread, at most once a sweep.
  method Read(ledger: Ledger, cfg: Config, world: World, r: Request, read: set<Thread>, ghost p: Progress)
    returns (ok: bool, commands: seq<Command>, nowRead: set<Thread>, ghost q: Progress)
    requires ledger.Valid() && ledger.cursors.seenIds == p.g.seen && ledger.cursors.denied == p.g.denied
    requires read == p.read && !p.raised
    modifies ledger`cursors
    ensures q == OneRequest(cfg, world, p, r) && nowRead == q.read && ok == !q.raised
    ensures ledger.Valid() && ledger.cursors == old(ledger.cursors).(seenIds := q.g.seen, denied := q.g.denied)
    ensures Flatten(q.g.batches) == Flatten(p.g.batches) + commands
  {
    hide OneRow, Within, Stamp, RowsOf, Ledger.Valid;
    q := OneRequest(cfg, world, p, r);
    ok, commands, nowRead := true, [], read;
    if ThreadOf(r.place) in read {
      return;
    }
    nowRead := read + {ThreadOf(r.place)};
    if ThreadOf(r.place) !in world.threads {
      ok := r.guarded;
      return;
    }
    commands := ReadRows(ledger, cfg, r.place, r.bound, RowsOf(world.threads[ThreadOf(r.place)], r.place.surface), p.g);
  }

  lemma FlattenMore(batches: seq<Batch>, found: Batch)
    ensures Flatten(batches + if found == [] then [] else [found]) == Flatten(batches) + found
  {
    if found == [] {
      assert batches + [] == batches;
    } else {
      assert (batches + [found])[..|batches|] == batches;
    }
  }

  method ReadRows(ledger: Ledger, cfg: Config, place: Where, bound: Option<int>, rows: seq<Comment>,
                  ghost before: Gathered)
    returns (commands: seq<Command>)
    requires ledger.Valid() && ledger.cursors.seenIds == before.seen && ledger.cursors.denied == before.denied
    modifies ledger`cursors
    ensures var g := Rows(cfg, place, bound, before, rows);
            && ledger.Valid() && ledger.cursors == old(ledger.cursors).(seenIds := g.seen, denied := g.denied)
            && Flatten(g.batches) == Flatten(before.batches) + commands
  {
    hide OneRow, Within, Stamp, Flatten, Ledger.Valid;
    commands := [];
    ghost var g := before;
    var k := 0;
    while k < |rows|
      invariant 0 <= k <= |rows|
      invariant g == Rows(cfg, place, bound, before, rows[..k])
      invariant ledger.Valid() && ledger.cursors == old(ledger.cursors).(seenIds := g.seen, denied := g.denied)
      invariant Flatten(g.batches) == Flatten(before.batches) + commands
    {
      assert rows[..k + 1][..k] == rows[..k];
      if Within(bound, Stamp(rows[k])) {
        var found := CommandsFrom(ledger, cfg, place, rows[k], g);
        FlattenMore(g.batches, found);
        commands := commands + found;
        g := OneRow(cfg, place, g, rows[k]);
      }
      k := k + 1;
    }
    assert rows[..|rows|] == rows;
  }

  lemma NoRequests(cfg: Config, world: World, p: Progress)
    ensures Requests(cfg, world, p, []) == p
  {}

  lemma RequestsMore(cfg: Config, world: World, p: Progress, rs: seq<Request>, k: nat)
    requires k < |rs|
    ensures Requests(cfg, world, p, rs[..k + 1]) == OneRequest(cfg, world, Requests(cfg, world, p, rs[..k]), rs[k])
  {
    hide OneRequest;
    assert rs[..k + 1][..k] == rs[..k];
  }

  method ReadAll(ledger: Ledger, cfg: Config, world: World, rs: seq<Request>, read: set<Thread>, ghost p: Progress)
    returns (ok: bool, commands: seq<Command>, nowRead: set<Thread>, ghost q: Progress)
    requires ledger.Valid() && ledger.cursors.seenIds == p.g.seen && ledger.cursors.denied == p.g.denied
    requires read == p.read && !p.raised
    modifies ledger`cursors
    ensures q == Requests(cfg, world, p, rs) && nowRead == q.read && ok == !q.raised
    ensures ledger.Valid() && ledger.cursors == old(ledger.cursors).(seenIds := q.g.seen, denied := q.g.denied)
    ensures Flatten(q.g.batches) == Flatten(p.g.batches) + commands
  {
    hide Requests, OneRequest, Flatten, Ledger.Valid;
    ok, commands, nowRead, q := true, [], read, p;
    var k := 0;
    NoRequests(cfg, world, p);
    while k < |rs| && ok
      invariant 0 <= k <= |rs|
      invariant q == Requests(cfg, world, p, rs[..k]) && nowRead == q.read && ok == !q.raised
      invariant ledger.Valid() && ledger.cursors == old(ledger.cursors).(seenIds := q.g.seen, denied := q.g.denied)
      invariant Flatten(q.g.batches) == Flatten(p.g.batches) + commands
    {
      RequestsMore(cfg, world, p, rs, k);
      var found;
      ok, found, nowRead, q := Read(ledger, cfg, world, rs[k], nowRead, q);
      commands := commands + found;
      k := k + 1;
    }
    assert rs[..|rs|] == rs;
    if !ok {
      RaisedStays(cfg, world, p, rs, k);
    }
  }

  // Nothing is read past an unguarded failure.
  lemma {:induction false} RaisedStays(cfg: Config, world: World, p: Progress, rs: seq<Request>, k: nat)
    requires k <= |rs| && Requests(cfg, world, p, rs[..k]).raised
    ensures Requests(cfg, world, p, rs) == Requests(cfg, world, p, rs[..k])
  {
    if k < |rs| {
      assert rs[..|rs| - 1][..k] == rs[..k];
      RaisedStays(cfg, world, p, rs[..|rs| - 1], k);
    } else {
      assert rs[..k] == rs;
    }
  }

  // The held comments come unseen, so that reading their threads collects them.
  method UnseeHeld(ledger: Ledger, held: seq<Held>)
    requires ledger.Valid()
    modifies ledger`cursors
    ensures ledger.Valid()
    ensures ledger.cursors == old(ledger.cursors).(seenIds := UnseeAll(old(ledger.cursors).seenIds, held))
  {
    var k := 0;
    while k < |held|
      invariant 0 <= k <= |held|
      invariant ledger.Valid()
      invariant ledger.cursors == old(ledger.cursors).(seenIds := UnseeAll(old(ledger.cursors).seenIds, held[..k]))
    {
      assert held[..k + 1][..k] == held[..k];
      ledger.Unsee(held[k].commentId);
      k := k + 1;
    }
    assert held[..|held|] == held;
  }

  function FeedOrNone(cfg: Config, world: World, since: int): seq<Request> {
    match world.feed
    case Some(notices) => FeedRequests(cfg, notices, since)
    case None => []
  }

  // `sweep`. A refused feed is survived and leaves its cursor; a raise lets go of no held entry.
  method Sweep(ledger: Ledger, cfg: Config, world: World, thread: int) returns (ok: bool, commands: seq<Command>)
    requires ledger.Valid()
    modifies ledger`cursors
    ensures ledger.Valid()
    ensures var out := SweepOutcome(cfg, world, thread, old(ledger.cursors), old(ledger.window).RateLimited(world.now));
            ok == out.returned && ledger.cursors == out.cursors && (ok ==> commands == Flatten(out.batches))
  {
    hide Ledger.Valid, EarlyRequests, FeedOrNone, Since, Requests;
    var since := Since(ledger.cursors.lastSeen, world.now);
    var held := HeldNow(ledger.cursors, ledger.window.RateLimited(world.now));
    ghost var p := Begin(ledger.cursors, ledger.window.RateLimited(world.now));
    UnseeHeld(ledger, held);
    ghost var q;
    var read;
    ok, commands, read, q := ReadAll(ledger, cfg, world,
        EarlyRequests(cfg, world, thread, held) + FeedOrNone(cfg, world, since), {}, p);
    if !ok {
      return;
    }
    if world.feed.Some? {
      ledger.AdvanceFeed(world.now);
    }
    ledger.ReleaseRetryThreads(held);
  }
}
