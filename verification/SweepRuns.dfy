// `cmd_sweep` of harness/__main__.py: what becomes of each collected comment, and what a run of
// sweeps keeps.
module SweepRuns {
  import opened Prelude
  import opened Ledgers
  import opened Keywords
  import opened SweepCoverage

  // How `_outcome` says one command went: it was answered; the model's limit stopped it and the
  // batch; the stored limit refused it alone; or GitHub's ceiling stopped the batch.
  datatype Result = Answered | Limited | Refused | Ceiling

  predicate LimitedBy(r: Result) {
    r == Limited || r == Refused
  }

  predicate Stops(r: Result) {
    r == Limited || r == Ceiling
  }

  // The k-th command after the n-th stops the batch.
  predicate StopsAt(results: Results, n: nat, k: nat) {
    Stops(results(n + k))
  }

  // The n-th command acted on in a sweep, and how it goes.
  type Results = nat -> Result

  // ---- grouping ----

  // A command joins the last group when it is of the same comment.
  function AddCommand(groups: seq<Batch>, c: Command): seq<Batch> {
    if groups != [] && groups[|groups| - 1] != [] && groups[|groups| - 1][0].commentId == c.commentId
    then groups[..|groups| - 1] + [groups[|groups| - 1] + [c]]
    else groups + [[c]]
  }

  // `_by_comment`
  function ByComment(commands: seq<Command>): seq<Batch> {
    if commands == [] then []
    else AddCommand(ByComment(commands[..|commands| - 1]), commands[|commands| - 1])
  }

  lemma ByCommentSnoc(commands: seq<Command>, c: Command)
    ensures ByComment(commands + [c]) == AddCommand(ByComment(commands), c)
  {
    assert (commands + [c])[..|commands|] == commands;
  }

  lemma JoinsItsGroup(groups: seq<Batch>, front: Batch, c: Command)
    requires front != [] && CommentOf(front) == c.commentId
    ensures AddCommand(groups + [front], c) == groups + [front + [c]]
  {
    assert (groups + [front])[..|groups|] == groups;
  }

  lemma {:induction false} ByCommentAppend(commands: seq<Command>, groups: seq<Batch>, b: Batch)
    requires ByComment(commands) == groups && OneComment(b)
    requires groups == [] || (groups[|groups| - 1] != [] && CommentOf(groups[|groups| - 1]) != CommentOf(b))
    ensures ByComment(commands + b) == groups + [b]
  {
    var front, c := b[..|b| - 1], b[|b| - 1];
    var before := commands + front;
    assert commands + b == before + [c] && front + [c] == b;
    ByCommentSnoc(before, c);
    if front == [] {
      assert before == commands && [c] == b;
      assert AddCommand(groups, c) == groups + [[c]];
    } else {
      assert forall k :: 0 <= k < |front| ==> front[k] == b[k];
      assert c == b[|b| - 1] && front[0] == b[0];
      ByCommentAppend(commands, groups, front);
      JoinsItsGroup(groups, front, c);
    }
  }

  lemma WellBatchedSplit(front: seq<Batch>, b: Batch)
    requires WellBatched(front + [b])
    ensures WellBatched(front) && OneComment(b) && CommentOf(b) !in BatchIds(front)
  {
    var all := front + [b];
    assert BatchIds(all) == BatchIds(front) + [CommentOf(b)];
    assert all[|front|] == b;
    forall x | x in front ensures OneComment(x) { assert x in all; }
    forall i, j | 0 <= i < j < |front| ensures BatchIds(front)[i] != BatchIds(front)[j] {
      assert BatchIds(all)[i] != BatchIds(all)[j];
    }
    forall i | 0 <= i < |front| ensures BatchIds(front)[i] != CommentOf(b) {
      assert BatchIds(all)[i] != BatchIds(all)[|front|];
    }
  }

  // Regrouping the flattened commands gives back each comment's own, in order.
  lemma {:induction false} ByCommentRecovers(batches: seq<Batch>)
    requires WellBatched(batches)
    ensures ByComment(Flatten(batches)) == batches
  {
    if batches != [] {
      var front, b := batches[..|batches| - 1], batches[|batches| - 1];
      assert batches == front + [b];
      WellBatchedSplit(front, b);
      ByCommentRecovers(front);
      if front != [] {
        assert BatchIds(front)[|front| - 1] == CommentOf(front[|front| - 1]);
      }
      ByCommentAppend(Flatten(front), front, b);
    }
  }

  // ---- one comment ----

  // How many of a comment's commands are acted on, from the k-th on, when the first ran.
  function Acted(len: nat, results: Results, n: nat, k: nat): nat
    requires k <= len
    decreases len - k
  {
    if k == len then len
    else if StopsAt(results, n, k) then k + 1
    else Acted(len, results, n, k + 1)
  }

  // What becomes of a collected comment: held whole, or its first `acted` commands each answered
  // or told to come again.
  datatype Fate = HeldBack | Run(acted: nat)

  function FateOf(len: nat, results: Results, n: nat): Fate {
    if len > 0 && LimitedBy(results(n)) then HeldBack else Run(Acted(len, results, n, 0))
  }

  function ActedIn(f: Fate): nat {
    match f
    case HeldBack => 1
    case Run(acted) => acted
  }

  predicate KeepsGoing(len: nat, results: Results, n: nat) {
    match FateOf(len, results, n)
    case HeldBack => !Stops(results(n))
    case Run(acted) => acted == 0 || !StopsAt(results, n, acted - 1)
  }

  lemma ActedStep(len: nat, results: Results, n: nat, k: nat)
    requires k < len
    ensures Acted(len, results, n, k) == if StopsAt(results, n, k) then k + 1 else Acted(len, results, n, k + 1)
  {}

  lemma ActedEnds(len: nat, results: Results, n: nat)
    ensures Acted(len, results, n, len) == len
  {}

  lemma {:induction false} ActedBounds(len: nat, results: Results, n: nat, k: nat)
    requires k < len
    ensures k < Acted(len, results, n, k) <= len
    ensures forall j :: k <= j < Acted(len, results, n, k) - 1 ==> !StopsAt(results, n, j)
    ensures Acted(len, results, n, k) < len ==> StopsAt(results, n, Acted(len, results, n, k) - 1)
    decreases len - k
  {
    if !StopsAt(results, n, k) && k + 1 < len {
      ActedBounds(len, results, n, k + 1);
    }
  }

  // What becomes of a comment, by how its commands went: it is held when the model's limit met the
  // first; else its commands are acted on in order up to the first that stops the batch. The batch
  // goes on when none of those it acted on stops it.
  lemma FateMeans(len: nat, results: Results, n: nat)
    requires len > 0
    ensures FateOf(len, results, n) == HeldBack <==> results(n) == Limited || results(n) == Refused
    ensures var fate := FateOf(len, results, n);
            && 0 < ActedIn(fate) <= len && (fate == HeldBack ==> ActedIn(fate) == 1)
            && (KeepsGoing(len, results, n) <==> forall j :: 0 <= j < ActedIn(fate) ==> GoesWell(results, n, j))
            && (fate.Run? ==> forall j :: 0 <= j < ActedIn(fate) - 1 ==> GoesWell(results, n, j))
            && (fate.Run? && ActedIn(fate) < len ==> !GoesWell(results, n, ActedIn(fate) - 1))
  {
    ActedBounds(len, results, n, 0);
    forall j: nat ensures StopsAt(results, n, j) <==> !GoesWell(results, n, j) {}
  }

  // The command stops nothing: neither the model's limit nor GitHub's ceiling met it.
  ghost predicate GoesWell(results: Results, n: nat, j: nat) {
    results(n + j) != Limited && results(n + j) != Ceiling
  }

  // `_hold_for_retry`
  function HeldFor(cfg: Config, c: Command): Held {
    var here := c.place.surface == "issue" || c.place.surface == "inbox" || c.place.surface == "proposal_pr";
    Held(if here then cfg.selfRepo else cfg.upstreamRepo, c.place.surface, c.place.number, c.commentId, c.posted)
  }

  function HeldForGroup(cfg: Config, b: Batch): Held {
    if b == [] then Held("", "", 0, "", None) else HeldFor(cfg, b[0])
  }

  function Said(r: Result): Reply {
    if r == Answered then WasAnswered else SayItAgain
  }

  ghost predicate AllSaid(replies: seq<Reply>, results: Results, n: nat) {
    forall j :: 0 <= j < |replies| ==> replies[j] == Said(results(n + j))
  }

  lemma NothingSaid(results: Results, n: nat)
    ensures AllSaid([], results, n)
  {}

  lemma SaidOneMore(replies: seq<Reply>, results: Results, n: nat)
    requires AllSaid(replies, results, n)
    ensures AllSaid(replies + [Said(results(n + |replies|))], results, n)
  {}

  lemma HeldReplies(len: nat, results: Results, n: nat)
    requires FateOf(len, results, n).HeldBack?
    ensures forall j :: 0 <= j < len ==> ReplyTo(len, results, n, j) == HeldWithComment
  {}

  // A comment whose commands ran has the replies of its fate.
  lemma RunReplies(len: nat, results: Results, n: nat, replies: seq<Reply>)
    requires FateOf(len, results, n) == Run(|replies|) && |replies| <= len && AllSaid(replies, results, n)
    ensures forall j :: 0 <= j < |replies| ==> replies[j] == ReplyTo(len, results, n, j)
    ensures forall j :: |replies| <= j < len ==> ReplyTo(len, results, n, j) == Silent
  {}

  // `run_comment`: acts in order; the first command alone decides whether the comment is held.
  // `replies` is what it says, a reply for each command it acted on; it says nothing of the rest.
  method RunComment(ledger: Ledger, cfg: Config, cmds: Batch, results: Results, n: nat)
    returns (fate: Fate, keepGoing: bool, replies: seq<Reply>)
    requires ledger.Valid() && cmds != []
    modifies ledger`cursors
    ensures ledger.Valid()
    ensures fate == FateOf(|cmds|, results, n) && keepGoing == KeepsGoing(|cmds|, results, n)
    ensures |replies| == ActedIn(fate) <= |cmds|
    ensures forall j :: 0 <= j < |replies| ==> replies[j] == ReplyTo(|cmds|, results, n, j)
    ensures forall j :: |replies| <= j < |cmds| ==>
              ReplyTo(|cmds|, results, n, j) == if fate.HeldBack? then HeldWithComment else Silent
    ensures ledger.cursors == old(ledger.cursors).(retry :=
              if fate.HeldBack? then Holding(old(ledger.cursors).retry, HeldForGroup(cfg, cmds))
                  else old(ledger.cursors).retry)
  {
    hide AllSaid, ReplyTo, Acted, Ledger.Valid;
    ActedEnds(|cmds|, results, n);
    keepGoing, replies := true, [];
    var index := 0;
    assert AllSaid([], results, n) by { NothingSaid(results, n); }
    while index < |cmds|
      invariant 0 <= index <= |cmds|
      invariant ledger.Valid() && ledger.cursors == old(ledger.cursors)
      invariant keepGoing && (index > 0 ==> !LimitedBy(results(n)) && !StopsAt(results, n, index - 1))
      invariant Acted(|cmds|, results, n, 0) == Acted(|cmds|, results, n, index)
      invariant |replies| == index && AllSaid(replies, results, n)
    {
      var r := results(n + index);
      keepGoing := !Stops(r);
      var held := LimitedBy(r) && index == 0;
      if held {
        ledger.HoldForRetry(HeldForGroup(cfg, cmds));
        HeldReplies(|cmds|, results, n);
        return HeldBack, keepGoing, [HeldWithComment];
      }
      SaidOneMore(replies, results, n);
      ActedStep(|cmds|, results, n, index);
      if LimitedBy(r) || !keepGoing {
        replies := replies + [SayItAgain];
      } else {
        replies := replies + [WasAnswered];
      }
      index := index + 1;
      if !keepGoing {
        break;
      }
    }
    fate := Run(index);
    RunReplies(|cmds|, results, n, replies);
  }

  // What becomes of the j-th of a comment's commands.
  datatype Reply = WasAnswered | SayItAgain | HeldWithComment | Silent

  function ReplyTo(len: nat, results: Results, n: nat, j: nat): Reply
    requires j < len
  {
    match FateOf(len, results, n)
    case HeldBack => HeldWithComment
    case Run(acted) => if j >= acted then Silent else Said(results(n + j))
  }

  // What it says to each: a command not held is answered when it went well, told to come again when
  // it did not, and told nothing past the last that was acted on.
  lemma RepliesMean(len: nat, results: Results, n: nat, j: nat)
    requires j < len
    ensures var reply, fate := ReplyTo(len, results, n, j), FateOf(len, results, n);
            && (reply == HeldWithComment <==> fate == HeldBack)
            && (reply == Silent <==> fate.Run? && j >= ActedIn(fate))
            && (reply == WasAnswered <==> fate.Run? && j < ActedIn(fate) && results(n + j) == Answered)
  {}

  // A command is left without an answer exactly when its comment was not held and an earlier
  // command of the comment stopped the batch.
  lemma SilentExactly(len: nat, results: Results, n: nat, j: nat)
    requires j < len
    ensures ReplyTo(len, results, n, j) == Silent <==>
              !LimitedBy(results(n)) && exists i :: 0 <= i < j && StopsAt(results, n, i)
  {
    ActedBounds(len, results, n, 0);
    var acted := Acted(len, results, n, 0);
    if j >= acted {
      assert StopsAt(results, n, acted - 1);
    }
  }

  // It does happen: three commands, the second of which meets the limit.
  lemma ThirdCommandIsSilent() returns (results: Results)
    ensures ReplyTo(3, results, 0, 0) == WasAnswered && ReplyTo(3, results, 0, 1) == SayItAgain
              && ReplyTo(3, results, 0, 2) == Silent
  {
    results := k => if k == 1 then Limited else Answered;
    assert !Stops(results(0)) && Stops(results(1));
    assert Acted(3, results, 0, 0) == Acted(3, results, 0, 1) == 2;
  }

  // ---- the batch ----

  datatype Tally = Tally(retry: seq<Held>, fates: seq<Fate>, next: nat, going: bool)

  // One more group: acted on while the batch goes on, held once it has stopped.
  function OneGroup(cfg: Config, results: Results, t: Tally, g: Batch): Tally {
    if !t.going then Tally(Holding(t.retry, HeldForGroup(cfg, g)), t.fates + [HeldBack], t.next, false)
    else
      var f := FateOf(|g|, results, t.next);
      Tally(if f.HeldBack? then Holding(t.retry, HeldForGroup(cfg, g)) else t.retry,
            t.fates + [f], t.next + ActedIn(f), KeepsGoing(|g|, results, t.next))
  }

  function RunGroups(cfg: Config, results: Results, retry: seq<Held>, groups: seq<Batch>): Tally {
    if groups == [] then Tally(retry, [], 0, true)
    else OneGroup(cfg, results, RunGroups(cfg, results, retry, groups[..|groups| - 1]), groups[|groups| - 1])
  }

  // Where an exception leaves `run_comment`: in acting on the comment at this place of the batch,
  // of which this has become by then.
  datatype Cut = Cut(place: nat, fate: Fate)

  predicate CutsAt(cfg: Config, results: Results, retry: seq<Held>, groups: seq<Batch>, cut: Option<Cut>) {
    cut.Some? && cut.value.place < |groups| && RunGroups(cfg, results, retry, groups[..cut.value.place]).going
  }

  function CutGroup(cfg: Config, t: Tally, g: Batch, f: Fate): Tally {
    Tally(if f.HeldBack? then Holding(t.retry, HeldForGroup(cfg, g)) else t.retry, t.fates + [f], t.next, false)
  }

  // The batch as far as an exception lets it go, if one does leave it.
  function RunBatch(cfg: Config, results: Results, retry: seq<Held>, groups: seq<Batch>, cut: Option<Cut>): Tally {
    if CutsAt(cfg, results, retry, groups, cut)
    then
      CutGroup(cfg, RunGroups(cfg, results, retry, groups[..cut.value.place]), groups[cut.value.place], cut.value.fate)
    else RunGroups(cfg, results, retry, groups)
  }

  // The loop of `cmd_sweep`: act on each comment in turn, and hold what a stopped batch never
  // reached. An exception ends it where it is.
  method ActOnGroups(ledger: Ledger, cfg: Config, groups: seq<Batch>, results: Results, cut: Option<Cut>)
    returns (raised: bool, ghost tally: Tally)
    requires ledger.Valid() && forall b :: b in groups ==> b != []
    modifies ledger`cursors
    ensures ledger.Valid()
    ensures tally == RunBatch(cfg, results, old(ledger.cursors).retry, groups, cut)
    ensures raised <==> CutsAt(cfg, results, old(ledger.cursors).retry, groups, cut)
    ensures raised ==>
              && cut.Some? && cut.value.place < |groups|
              && RunGroups(cfg, results, old(ledger.cursors).retry, groups[..cut.value.place]).going
    ensures ledger.cursors == old(ledger.cursors).(retry := tally.retry)
  {
    hide RunGroups, OneGroup, Ledger.Valid;
    ghost var retry := ledger.cursors.retry;
    raised := false;
    var k, n, going := 0, 0, true;
    tally := RunGroups(cfg, results, retry, groups[..0]);
    NoGroups(cfg, results, retry);
    while k < |groups|
      invariant 0 <= k <= |groups| && ledger.Valid()
      invariant tally == RunGroups(cfg, results, retry, groups[..k]) && going == tally.going && n == tally.next
      invariant cut.Some? && cut.value.place < k ==> !RunGroups(cfg, results, retry, groups[..cut.value.place]).going
      invariant ledger.cursors == old(ledger.cursors).(retry := tally.retry)
    {
      assert groups[k] in groups;
      OneGroupMore(cfg, results, retry, groups, k);
      if going && cut.Some? && cut.value.place == k {
        if cut.value.fate.HeldBack? {
          ledger.HoldForRetry(HeldForGroup(cfg, groups[k]));
        }
        tally := CutGroup(cfg, tally, groups[k], cut.value.fate);
        return true, tally;
      }
      if going {
        var fate;
        var replies;
        fate, going, replies := RunComment(ledger, cfg, groups[k], results, n);
        n := n + ActedIn(fate);
      } else {
        // The batch has stopped, so this comment waits whole.
        ledger.HoldForRetry(HeldForGroup(cfg, groups[k]));
      }
      k := k + 1;
      tally := RunGroups(cfg, results, retry, groups[..k]);
    }
    assert groups[..|groups|] == groups;
  }

  lemma NoGroups(cfg: Config, results: Results, retry: seq<Held>)
    ensures RunGroups(cfg, results, retry, []) == Tally(retry, [], 0, true)
  {}

  // The next group: acted on while the batch goes on, held once it has stopped.
  lemma OneGroupMore(cfg: Config, results: Results, retry: seq<Held>, groups: seq<Batch>, k: nat)
    requires k < |groups|
    ensures var t := RunGroups(cfg, results, retry, groups[..k]);
            var u := RunGroups(cfg, results, retry, groups[..k + 1]);
            var f := FateOf(|groups[k]|, results, t.next);
            && (!t.going ==> u.retry == Holding(t.retry, HeldForGroup(cfg, groups[k])) && !u.going && u.next == t.next)
            && (t.going ==>
                  && u.retry == (if f.HeldBack? then Holding(t.retry, HeldForGroup(cfg, groups[k])) else t.retry)
                  && u.next == t.next + ActedIn(f) && u.going == KeepsGoing(|groups[k]|, results, t.next))
  {
    hide FateOf, KeepsGoing;
    assert groups[..k + 1][..k] == groups[..k];
  }

  // `cmd_sweep`: whether the reading came back, and whether an exception left the batch after it.
  method CmdSweep(ledger: Ledger, cfg: Config, world: World, thread: int, results: Results, cut: Option<Cut>)
    returns (ok: bool, raised: bool, ghost tally: Tally)
    requires ledger.Valid()
    modifies ledger`cursors, ledger`window
    ensures ledger.Valid()
    ensures ledger.window == if old(ledger.window).BlockOpen(world.now) then old(ledger.window)
              else old(ledger.window).(block := None)
    ensures var out := SweepOutcome(cfg, world, thread, old(ledger.cursors), old(ledger.window).RateLimited(world.now));
            && ok == out.returned
            && (!ok ==> ledger.cursors == out.cursors)
            && (ok ==> tally == RunBatch(cfg, results, out.cursors.retry, out.batches, cut))
            && (raised <==> !ok || CutsAt(cfg, results, out.cursors.retry, out.batches, cut))
            && (ok ==> ledger.cursors == out.cursors.(retry := tally.retry))
  {
    if ledger.window.block.Some? && !ledger.window.BlockOpen(world.now) {
      ledger.ClearBlock();
    }
    ghost var limited := ledger.window.RateLimited(world.now);
    ghost var out := SweepOutcome(cfg, world, thread, ledger.cursors, limited);
    OutcomeSound(cfg, world, thread, ledger.cursors, limited);
    hide Ledger.Valid, SweepOutcome, RunBatch, CutsAt;
    var commands;
    tally := Tally([], [], 0, true);
    ok, commands := Sweep(ledger, cfg, world, thread);
    raised := !ok;
    if ok {
      ByCommentRecovers(out.batches);
      raised, tally := ActOnGroups(ledger, cfg, ByComment(commands), results, cut);
    }
  }

  lemma OutcomeSound(cfg: Config, world: World, thread: int, cursors: Cursors, limited: bool)
    requires Distinct(cursors.seenIds)
    ensures var out := SweepOutcome(cfg, world, thread, cursors, limited);
            var base := Elements(cursors.seenIds) - HeldIds(HeldNow(cursors, limited));
            out.returned ==> Sound(Gathered(out.cursors.seenIds, out.cursors.denied, out.batches), base)
  {
    BeginSound(cursors, limited);
    RequestsSound(cfg, world, Begin(cursors, limited), AllRequests(cfg, world, thread, cursors, limited),
                  Elements(cursors.seenIds) - HeldIds(HeldNow(cursors, limited)));
  }

  // ---- no collected comment is lost ----

  function HeldBackIds(groups: seq<Batch>, fates: seq<Fate>): set<string>
    requires |groups| == |fates|
  {
    set i | 0 <= i < |groups| && fates[i].HeldBack? :: CommentOf(groups[i])
  }

  lemma OneGroupHolds(cfg: Config, results: Results, t: Tally, g: Batch)
    ensures var u := OneGroup(cfg, results, t, g);
            && |u.fates| == |t.fates| + 1 && u.fates[..|t.fates|] == t.fates
            && (HeldOnce(t.retry) ==> HeldOnce(u.retry))
            && HeldIds(u.retry) == HeldIds(t.retry) + (if u.fates[|t.fates|].HeldBack? then {CommentOf(g)} else {})
  {
    HoldingIds(t.retry, HeldForGroup(cfg, g));
  }

  lemma {:induction false} TallyHolds(cfg: Config, results: Results, retry: seq<Held>, groups: seq<Batch>)
    ensures var t := RunGroups(cfg, results, retry, groups);
            && |t.fates| == |groups|
            && (HeldOnce(retry) ==> HeldOnce(t.retry))
            && HeldIds(t.retry) == HeldIds(retry) + HeldBackIds(groups, t.fates)
  {
    if groups == [] {
      assert HeldBackIds([], []) == {};
    } else {
      var front, g := groups[..|groups| - 1], groups[|groups| - 1];
      TallyHolds(cfg, results, retry, front);
      var t, u := RunGroups(cfg, results, retry, front), RunGroups(cfg, results, retry, groups);
      OneGroupHolds(cfg, results, t, g);
      assert u.fates == t.fates + [u.fates[|t.fates|]];
      HeldBackSplit(front, t.fates, g, u.fates[|t.fates|]);
      assert front + [g] == groups;
    }
  }

  lemma {:induction false} RunFates(cfg: Config, results: Results, retry: seq<Held>, groups: seq<Batch>, i: nat)
    requires i < |groups| && groups[i] != []
    ensures var t := RunGroups(cfg, results, retry, groups);
            i < |t.fates| && (t.fates[i].Run? ==> 0 < t.fates[i].acted <= |groups[i]|)
  {
    FatesCount(cfg, results, retry, groups);
    var front := groups[..|groups| - 1];
    FatesCount(cfg, results, retry, front);
    if i < |front| {
      RunFates(cfg, results, retry, front, i);
    } else {
      ActedBounds(|groups[i]|, results, RunGroups(cfg, results, retry, front).next, 0);
    }
  }

  // Every collected comment is acted on or held, held once, and only those held join the
  // entries.
  lemma NothingCollectedIsLost(cfg: Config, results: Results, retry: seq<Held>, groups: seq<Batch>)
    requires WellBatched(groups) && HeldOnce(retry)
    ensures var t := RunGroups(cfg, results, retry, groups);
            && |t.fates| == |groups|
            && HeldIds(t.retry) == HeldIds(retry) + HeldBackIds(groups, t.fates)
            && HeldOnce(t.retry)
            && (forall i :: 0 <= i < |groups| && t.fates[i].Run? ==> 0 < t.fates[i].acted <= |groups[i]|)
  {
    TallyHolds(cfg, results, retry, groups);
    forall i | 0 <= i < |groups| && RunGroups(cfg, results, retry, groups).fates[i].Run?
      ensures 0 < RunGroups(cfg, results, retry, groups).fates[i].acted <= |groups[i]|
    {
      assert OneComment(groups[i]);
      RunFates(cfg, results, retry, groups, i);
    }
  }

  // However far the batch got, the entries gained exactly what it held.
  lemma BatchHolds(cfg: Config, results: Results, retry: seq<Held>, groups: seq<Batch>, cut: Option<Cut>)
    ensures var t := RunBatch(cfg, results, retry, groups, cut);
            && |t.fates| == (if CutsAt(cfg, results, retry, groups, cut) then cut.value.place + 1 else |groups|)
            && |t.fates| <= |groups|
            && (HeldOnce(retry) ==> HeldOnce(t.retry))
            && HeldIds(t.retry) == HeldIds(retry) + HeldBackIds(groups[..|t.fates|], t.fates)
  {
    hide HeldBackIds, RunGroups;
    if CutsAt(cfg, results, retry, groups, cut) {
      var k, f := cut.value.place, cut.value.fate;
      var front, g := groups[..k], groups[k];
      var t := RunGroups(cfg, results, retry, front);
      TallyHolds(cfg, results, retry, front);
      HoldingIds(t.retry, HeldForGroup(cfg, g));
      HeldBackSplit(front, t.fates, g, f);
      assert front + [g] == groups[..k + 1];
    } else {
      TallyHolds(cfg, results, retry, groups);
      assert groups[..|groups|] == groups;
    }
  }

  // A stopped batch was stopped at one comment, and every comment after it is held.
  lemma {:induction false} StoppedBatchHoldsTheRest(cfg: Config, results: Results, retry: seq<Held>,
                                                    groups: seq<Batch>) returns (i: nat)
    requires !RunGroups(cfg, results, retry, groups).going
    ensures |RunGroups(cfg, results, retry, groups).fates| == |groups|
    ensures i < |groups| && StoppedAt(cfg, results, retry, groups, i)
    ensures forall j :: i < j < |groups| ==> RunGroups(cfg, results, retry, groups).fates[j].HeldBack?
  {
    var front := groups[..|groups| - 1];
    FatesCount(cfg, results, retry, front);
    if RunGroups(cfg, results, retry, front).going {
      i := |groups| - 1;
      assert groups[..i + 1] == groups;
    } else {
      i := StoppedBatchHoldsTheRest(cfg, results, retry, front);
      assert groups[..i] == front[..i] && groups[..i + 1] == front[..i + 1];
    }
  }

  lemma {:induction false} FatesCount(cfg: Config, results: Results, retry: seq<Held>, groups: seq<Batch>)
    ensures |RunGroups(cfg, results, retry, groups).fates| == |groups|
  {
    if groups != [] {
      FatesCount(cfg, results, retry, groups[..|groups| - 1]);
    }
  }

  // The i-th comment is the one whose command stopped the batch.
  ghost predicate StoppedAt(cfg: Config, results: Results, retry: seq<Held>, groups: seq<Batch>, i: nat)
    requires i < |groups|
  {
    RunGroups(cfg, results, retry, groups[..i]).going && !RunGroups(cfg, results, retry, groups[..i + 1]).going
  }

  lemma HeldBackSplit(front: seq<Batch>, fates: seq<Fate>, g: Batch, f: Fate)
    requires |front| == |fates|
    ensures HeldBackIds(front + [g], fates + [f])
              == HeldBackIds(front, fates) + (if f.HeldBack? then {CommentOf(g)} else {})
  {
    var groups, all := front + [g], fates + [f];
    forall id ensures id in HeldBackIds(groups, all) <==>
        id in HeldBackIds(front, fates) + (if f.HeldBack? then {CommentOf(g)} else {}) {
      if id in HeldBackIds(front, fates) {
        var i :| 0 <= i < |front| && fates[i].HeldBack? && CommentOf(front[i]) == id;
        assert groups[i] == front[i] && all[i] == fates[i];
      }
      if f.HeldBack? && id == CommentOf(g) {
        assert groups[|front|] == g && all[|front|] == f;
      }
    }
  }

  // ---- runs of sweeps ----

  // One `cmd_sweep`: what GitHub showed, how each command went, whether the stored limit stood
  // when it began, and where an exception left the batch, if one did.
  datatype Step = Step(world: World, thread: int, results: Results, limited: bool, cut: Option<Cut>)

  // What it did: the cursors it began from, what the reading left, and how the batch went when
  // the reading returned.
  datatype Log = Log(before: Cursors, out: Outcome, tally: Tally)

  ghost predicate Happened(cfg: Config, s: Step, l: Log) {
    && l.out == SweepOutcome(cfg, s.world, s.thread, l.before, s.limited)
    && (l.out.returned ==> l.tally == RunBatch(cfg, s.results, l.out.cursors.retry, l.out.batches, s.cut))
  }

  function CursorsAfter(l: Log): Cursors {
    if l.out.returned then l.out.cursors.(retry := l.tally.retry) else l.out.cursors
  }

  // A run of sweeps, whether they return, raise as they read or raise in the batch. Between two of
  // them nothing else touches what a sweep reads of its cursors; a refusal counted, a forced item or a
  // day's question may come between.
  ghost predicate IsRun(cfg: Config, run: seq<Step>, logs: seq<Log>) {
    && |run| == |logs|
    && (forall k {:trigger Happened(cfg, run[k], logs[k])} :: 0 <= k < |run| ==> Happened(cfg, run[k], logs[k]))
    && (forall k :: 0 < k < |logs| ==> Follows(logs, k))
  }

  ghost predicate Follows(logs: seq<Log>, k: nat)
    requires 0 < k < |logs|
  {
    var was := CursorsAfter(logs[k - 1]);
    logs[k].before.seenIds == was.seenIds && logs[k].before.retry == was.retry
        && logs[k].before.lastSeen == was.lastSeen
  }

  function CollectedIn(l: Log): set<string> {
    Elements(BatchIds(l.out.batches))
  }

  function HeldBackIn(l: Log): set<string> {
    if |l.tally.fates| <= |l.out.batches| then HeldBackIds(l.out.batches[..|l.tally.fates|], l.tally.fates) else {}
  }

  // The comments the sweep is done with: collected, and not held.
  function DoneIn(l: Log): set<string> {
    if l.out.returned then CollectedIn(l) - HeldBackIn(l) else {}
  }

  // Those whose commands ran: the batch came to them, and their first command met no model limit.
  function RanIn(l: Log): set<string> {
    if l.out.returned && |l.tally.fates| <= |l.out.batches|
    then Elements(BatchIds(l.out.batches[..|l.tally.fates|])) - HeldBackIn(l) else {}
  }

  // Those it never came to, because an exception had left it.
  function LostIn(l: Log): set<string> {
    if l.out.returned && |l.tally.fates| <= |l.out.batches|
    then Elements(BatchIds(l.out.batches[|l.tally.fates|..])) else {}
  }

  // Between sweeps: what they are done with is seen, and not held.
  ghost predicate Settled(cursors: Cursors, done: set<string>) {
    && Distinct(cursors.seenIds) && HeldOnce(cursors.retry)
    && done <= Elements(cursors.seenIds) && done !! HeldIds(cursors.retry)
  }

  // Every held comment is seen.
  ghost predicate HeldSeen(cursors: Cursors) {
    HeldIds(cursors.retry) <= Elements(cursors.seenIds)
  }

  lemma HeldBackCollected(groups: seq<Batch>, fates: seq<Fate>)
    requires |groups| == |fates|
    ensures HeldBackIds(groups, fates) <= Elements(BatchIds(groups))
  {
    forall id | id in HeldBackIds(groups, fates) ensures id in Elements(BatchIds(groups)) {
      var i :| 0 <= i < |groups| && fates[i].HeldBack? && CommentOf(groups[i]) == id;
      assert BatchIds(groups)[i] == id;
    }
  }

  function HeldWhile(cursors: Cursors, limited: bool): set<string> {
    if limited then HeldIds(cursors.retry) else {}
  }

  // The ids in play when a sweep begins, and when its reading ends.
  lemma SweepFacts(cfg: Config, s: Step, before: Cursors, out: Outcome)
    requires Distinct(before.seenIds) && HeldOnce(before.retry)
    requires out == SweepOutcome(cfg, s.world, s.thread, before, s.limited) && out.returned
    ensures var base := Elements(before.seenIds) - (HeldIds(before.retry) - HeldWhile(before, s.limited));
            Sound(Gathered(out.cursors.seenIds, out.cursors.denied, out.batches), base)
    ensures HeldOnce(out.cursors.retry) && HeldIds(out.cursors.retry) == HeldWhile(before, s.limited)
  {
    hide Requests, AllRequests, Sound, RetryThreads, NotReleased;
    var held := HeldNow(before, s.limited);
    RetryKeepsIds(before.retry);
    NotReleasedHolds(RetryThreads(before.retry), HeldIds(held));
    assert HeldIds([]) == {};
    assert HeldIds(held) == HeldIds(before.retry) - HeldWhile(before, s.limited);
    OutcomeSound(cfg, s.world, s.thread, before, s.limited);
  }

  // A sweep that raises keeps the held entries and every id seen, but those of the held it unsaw.
  lemma RaiseFacts(cfg: Config, s: Step, before: Cursors, out: Outcome)
    requires Distinct(before.seenIds)
    requires out == SweepOutcome(cfg, s.world, s.thread, before, s.limited) && !out.returned
    ensures Distinct(out.cursors.seenIds) && out.cursors.retry == before.retry && out.batches == []
    ensures Elements(before.seenIds) - (HeldIds(before.retry) - HeldWhile(before,
              s.limited)) <= Elements(out.cursors.seenIds)
  {
    var held := HeldNow(before, s.limited);
    RetryKeepsIds(before.retry);
    assert HeldIds([]) == {};
    assert HeldIds(held) == HeldIds(before.retry) - HeldWhile(before, s.limited);
    BeginSound(before, s.limited);
    RequestsSound(cfg, s.world, Begin(before, s.limited), AllRequests(cfg, s.world, s.thread, before, s.limited),
                  Elements(before.seenIds) - HeldIds(held));
  }

  lemma FrontCollected(groups: seq<Batch>, n: nat)
    requires n <= |groups|
    ensures Elements(BatchIds(groups)) == Elements(BatchIds(groups[..n])) + Elements(BatchIds(groups[n..]))
  {
    var all, front, rest := BatchIds(groups), BatchIds(groups[..n]), BatchIds(groups[n..]);
    assert all == front + rest;
  }

  // What a batch holds it collected.
  lemma HeldBackWasCollected(l: Log)
    ensures HeldBackIn(l) <= CollectedIn(l)
  {
    if |l.tally.fates| <= |l.out.batches| {
      HeldBackCollected(l.out.batches[..|l.tally.fates|], l.tally.fates);
      FrontCollected(l.out.batches, |l.tally.fates|);
    }
  }

  lemma BatchFacts(cfg: Config, s: Step, l: Log, base: set<string>)
    requires Sound(Gathered(l.out.cursors.seenIds, l.out.cursors.denied, l.out.batches), base)
               && HeldOnce(l.out.cursors.retry)
    requires l.out.returned && l.tally == RunBatch(cfg, s.results, l.out.cursors.retry, l.out.batches, s.cut)
    ensures HeldOnce(l.tally.retry) && |l.tally.fates| <= |l.out.batches|
    ensures HeldIds(l.tally.retry) == HeldIds(l.out.cursors.retry) + (CollectedIn(l) - DoneIn(l))
    ensures CollectedIn(l) <= Elements(l.out.cursors.seenIds) && CollectedIn(l) !! base
    ensures base <= Elements(l.out.cursors.seenIds) && Distinct(l.out.cursors.seenIds)
  {
    hide RunBatch;
    BatchHolds(cfg, s.results, l.out.cursors.retry, l.out.batches, s.cut);
    HeldBackWasCollected(l);
  }

  // Nothing a batch is done with was held: it ran, or an exception lost it.
  lemma DoneIsRanOrLost(l: Log)
    requires WellBatched(l.out.batches) && l.out.returned && |l.tally.fates| <= |l.out.batches|
    ensures DoneIn(l) == RanIn(l) + LostIn(l) && RanIn(l) !! LostIn(l)
  {
    var n, ids := |l.tally.fates|, BatchIds(l.out.batches);
    FrontCollected(l.out.batches, n);
    HeldBackCollected(l.out.batches[..n], l.tally.fates);
    var front, rest := BatchIds(l.out.batches[..n]), BatchIds(l.out.batches[n..]);
    assert front == ids[..n] && rest == ids[n..];
    forall id | id in Elements(front) ensures id !in Elements(rest) {
      var i :| 0 <= i < n && ids[i] == id;
      assert forall j :: n <= j < |ids| ==> ids[i] != ids[j];
    }
  }

  // What one sweep does to the ids, returning or raising.
  lemma StepFacts(cfg: Config, s: Step, l: Log)
    requires Distinct(l.before.seenIds) && HeldOnce(l.before.retry) && Happened(cfg, s, l)
    ensures Distinct(CursorsAfter(l).seenIds) && HeldOnce(CursorsAfter(l).retry)
    ensures Elements(l.before.seenIds) - (HeldIds(l.before.retry) - HeldWhile(l.before,
              s.limited)) <= Elements(CursorsAfter(l).seenIds)
    ensures DoneIn(l) <= CollectedIn(l) <= Elements(CursorsAfter(l).seenIds)
    ensures CollectedIn(l) !! Elements(l.before.seenIds) - (HeldIds(l.before.retry) - HeldWhile(l.before, s.limited))
    ensures HeldIds(CursorsAfter(l).retry)
         == if l.out.returned then HeldWhile(l.before, s.limited) + (CollectedIn(l) - DoneIn(l))
             else HeldIds(l.before.retry)
  {
    if l.out.returned {
      SweepFacts(cfg, s, l.before, l.out);
      BatchFacts(cfg, s, l, Elements(l.before.seenIds) - (HeldIds(l.before.retry) - HeldWhile(l.before, s.limited)));
    } else {
      RaiseFacts(cfg, s, l.before, l.out);
      assert CollectedIn(l) == {};
    }
  }

  // A sweep collects nothing done with before, and keeps what is done with seen and not held
  // exactly when it is not done, under the stored limit, with a comment still held.
  lemma OneStep(cfg: Config, s: Step, l: Log, done: set<string>)
    requires Settled(l.before, done) && Happened(cfg, s, l)
    ensures CollectedIn(l) !! done
    ensures Settled(CursorsAfter(l), done + DoneIn(l)) <==> !(s.limited && DoneIn(l) * HeldIds(l.before.retry) != {})
  {
    hide CursorsAfter, CollectedIn, DoneIn, Happened;
    StepFacts(cfg, s, l);
    if !l.out.returned { RaisedDidNothing(l); }
    assert HeldWhile(l.before, s.limited) == if s.limited then HeldIds(l.before.retry) else {};
    var after := HeldIds(CursorsAfter(l).retry);
    assert done !! after;
    if s.limited && DoneIn(l) * HeldIds(l.before.retry) != {} {
      var id :| id in DoneIn(l) * HeldIds(l.before.retry);
      assert id in after && id in done + DoneIn(l);
    } else {
      forall id | id in DoneIn(l) ensures id !in after {
        if s.limited { assert id !in DoneIn(l) * HeldIds(l.before.retry); }
      }
    }
  }

  lemma RaisedDidNothing(l: Log)
    requires !l.out.returned
    ensures DoneIn(l) == {}
  {}

  // That cannot be when every held comment is seen.
  lemma OneStepOfSeen(cfg: Config, s: Step, l: Log, done: set<string>)
    requires Settled(l.before, done) && Happened(cfg, s, l) && (s.limited ==> HeldSeen(l.before))
    ensures CollectedIn(l) !! done && Settled(CursorsAfter(l), done + DoneIn(l))
    ensures l.out.returned || s.limited ==> HeldSeen(CursorsAfter(l))
  {
    hide CursorsAfter, CollectedIn, DoneIn, Happened;
    StepFacts(cfg, s, l);
    OneStep(cfg, s, l, done);
  }

  function DoneDuring(logs: seq<Log>): set<string> {
    if logs == [] then {} else DoneDuring(logs[..|logs| - 1]) + DoneIn(logs[|logs| - 1])
  }

  lemma DoneDuringSnoc(logs: seq<Log>, k: nat)
    requires k < |logs|
    ensures DoneDuring(logs[..k + 1]) == DoneDuring(logs[..k]) + DoneIn(logs[k])
  {
    assert logs[..k + 1][..k] == logs[..k];
  }

  // No sweep begins under the stored limit with a held comment unseen.
  ghost predicate Careful(run: seq<Step>, logs: seq<Log>)
    requires |run| == |logs|
  {
    forall k :: 0 <= k < |run| && run[k].limited ==> HeldSeen(logs[k].before)
  }

  lemma SettledAlike(a: Cursors, b: Cursors, done: set<string>)
    requires a.seenIds == b.seenIds && a.retry == b.retry
    ensures Settled(a, done) == Settled(b, done) && HeldSeen(a) == HeldSeen(b)
  {}

  // Between any two sweeps of a run, what has run is seen and not held.
  lemma {:induction false} RunSettles(cfg: Config, run: seq<Step>, logs: seq<Log>, k: nat)
    requires k < |run| == |logs| && IsRun(cfg, run, logs) && Settled(logs[0].before, {}) && Careful(run, logs)
    ensures Settled(logs[k].before, DoneDuring(logs[..k]))
  {
    hide Happened, CursorsAfter, DoneDuring, HeldSeen, Settled;
    if k == 0 {
      NothingDone();
      assert logs[..0] == [];
    } else {
      RunSettles(cfg, run, logs, k - 1);
      assert Happened(cfg, run[k - 1], logs[k - 1]) && Follows(logs, k);
      OneStepOfSeen(cfg, run[k - 1], logs[k - 1], DoneDuring(logs[..k - 1]));
      DoneDuringSnoc(logs, k - 1);
      SettledAlike(logs[k].before, CursorsAfter(logs[k - 1]), DoneDuring(logs[..k]));
    }
  }

  lemma NothingDone()
    ensures DoneDuring([]) == {}
  {}

  // Only a sweep that raises while no limit stands leaves a held comment unseen, and only the
  // next sweep has to mind it.
  lemma {:induction false} RaisesPutRight(cfg: Config, run: seq<Step>, logs: seq<Log>, k: nat)
    requires k < |run| == |logs| && IsRun(cfg, run, logs) && Settled(logs[0].before, {}) && HeldSeen(logs[0].before)
    requires forall j :: 0 < j < |run| && run[j].limited ==> logs[j - 1].out.returned || run[j - 1].limited
    ensures Settled(logs[k].before, DoneDuring(logs[..k]))
    ensures HeldSeen(logs[k].before) || (k > 0 && !logs[k - 1].out.returned && !run[k - 1].limited)
  {
    hide Happened, CursorsAfter, DoneDuring, HeldSeen, Settled;
    if k == 0 {
      NothingDone();
      assert logs[..0] == [];
    } else {
      RaisesPutRight(cfg, run, logs, k - 1);
      assert Happened(cfg, run[k - 1], logs[k - 1]) && Follows(logs, k);
      OneStepOfSeen(cfg, run[k - 1], logs[k - 1], DoneDuring(logs[..k - 1]));
      DoneDuringSnoc(logs, k - 1);
      SettledAlike(logs[k].before, CursorsAfter(logs[k - 1]), DoneDuring(logs[..k]));
    }
  }

  // So a run is careful when no limited sweep comes right after one that raised with no limit:
  // any run of sweeps that return is.
  lemma CarefulRuns(cfg: Config, run: seq<Step>, logs: seq<Log>)
    requires |run| == |logs| > 0 && IsRun(cfg, run, logs) && Settled(logs[0].before, {}) && HeldSeen(logs[0].before)
    requires forall j :: 0 < j < |run| && run[j].limited ==> logs[j - 1].out.returned || run[j - 1].limited
    ensures Careful(run, logs)
  {
    forall k | 0 <= k < |run| && run[k].limited ensures HeldSeen(logs[k].before) {
      RaisesPutRight(cfg, run, logs, k);
    }
  }

  lemma {:induction false} DoneDuringHas(logs: seq<Log>, i: nat)
    requires i < |logs|
    ensures DoneIn(logs[i]) <= DoneDuring(logs)
  {
    if i < |logs| - 1 {
      DoneDuringHas(logs[..|logs| - 1], i);
    }
  }

  lemma NeverAgain(cfg: Config, run: seq<Step>, logs: seq<Log>, i: nat, j: nat, id: string)
    requires i < j < |run| == |logs| && IsRun(cfg, run, logs) && Settled(logs[0].before, {}) && Careful(run, logs)
    requires id in DoneIn(logs[i])
    ensures id in logs[j].before.seenIds && id !in HeldIds(logs[j].before.retry)
    ensures id !in CollectedIn(logs[j])
  {
    RunSettles(cfg, run, logs, j);
    DoneDuringHas(logs[..j], i);
    assert Happened(cfg, run[j], logs[j]);
    OneStep(cfg, run[j], logs[j], DoneDuring(logs[..j]));
  }

  lemma RunSplits(cfg: Config, run: seq<Step>, logs: seq<Log>, i: nat)
    requires i < |run| == |logs| && IsRun(cfg, run, logs) && Settled(logs[0].before, {}) && Careful(run, logs)
    requires logs[i].out.returned
    ensures DoneIn(logs[i]) == RanIn(logs[i]) + LostIn(logs[i]) && RanIn(logs[i]) !! LostIn(logs[i])
  {
    hide RunBatch, SweepOutcome, DoneIn, RanIn, LostIn;
    RunSettles(cfg, run, logs, i);
    var s, l := run[i], logs[i];
    assert Happened(cfg, s, l);
    OutcomeSound(cfg, s.world, s.thread, l.before, s.limited);
    BatchHolds(cfg, s.results, l.out.cursors.retry, l.out.batches, s.cut);
    DoneIsRanOrLost(l);
  }

  // At most once: over any run of sweeps, whether they return, raise as they read or raise in the
  // batch, of which none begins under the stored limit with a held comment unseen, a comment whose
  // commands ran is seen and not held before every later sweep, and no later sweep collects it.
  lemma AtMostOnce(cfg: Config, run: seq<Step>, logs: seq<Log>, i: nat, j: nat, id: string)
    requires i < j < |run| == |logs| && IsRun(cfg, run, logs) && Settled(logs[0].before, {}) && Careful(run, logs)
    requires id in RanIn(logs[i])
    ensures id in logs[j].before.seenIds && id !in HeldIds(logs[j].before.retry)
    ensures id !in CollectedIn(logs[j])
  {
    RunSplits(cfg, run, logs, i);
    NeverAgain(cfg, run, logs, i, j, id);
  }

  // What an exception that leaves the batch loses: exactly the comments after the one it came from.
  lemma LostExactly(cfg: Config, s: Step, l: Log)
    requires Happened(cfg, s, l) && l.out.returned
    ensures LostIn(l) == if CutsAt(cfg, s.results, l.out.cursors.retry, l.out.batches, s.cut)
              then Elements(BatchIds(l.out.batches[s.cut.value.place + 1..])) else {}
  {
    BatchHolds(cfg, s.results, l.out.cursors.retry, l.out.batches, s.cut);
    assert BatchIds([]) == [];
  }

  // They are lost for good: seen, held by nothing, and collected by no later sweep. None of their
  // commands ran.
  lemma LostForGood(cfg: Config, run: seq<Step>, logs: seq<Log>, i: nat, j: nat, id: string)
    requires i < j < |run| == |logs| && IsRun(cfg, run, logs) && Settled(logs[0].before, {}) && Careful(run, logs)
    requires id in LostIn(logs[i])
    ensures id in CollectedIn(logs[i]) && id !in RanIn(logs[i])
    ensures id in logs[j].before.seenIds && id !in HeldIds(logs[j].before.retry)
    ensures id !in CollectedIn(logs[j])
  {
    RunSplits(cfg, run, logs, i);
    NeverAgain(cfg, run, logs, i, j, id);
  }

  // A first ledger is settled with every held comment seen, so the promise holds from the first
  // sweep on.
  lemma FirstLedgerSettled()
    ensures Settled(EmptyCursors, {}) && HeldSeen(EmptyCursors)
  {
    assert HeldIds(EmptyCursors.retry) == {};
  }
}
