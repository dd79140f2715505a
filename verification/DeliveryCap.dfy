// The open-delivery cap of harness/stages/deliver.py over the item loop of `cmd_run`.
module DeliveryCap {
  import opened Prelude

  // A work item and its branch, "" until it has one.
  datatype Item = Item(id: int, branch: string)

  // Branches this run delivered that the listing does not show yet.
  function Unlisted(ours: seq<string>, heads: set<string>): set<string> {
    set b | b in ours && b != "" && b !in heads
  }

  // `_cap` and `delivery_cap_refusals`: the items that may not start. `listing` is the open pull
  // requests' branches, None when they could not be counted.
  function Refused(cap: int, canWrite: bool, listing: Option<seq<string>>, items: seq<Item>,
                   ours: seq<string>): set<int> {
    if cap <= 0 || !canWrite then {}
    else match listing
      case None => set i | i in items :: i.id
      case Some(rows) =>
        if |rows| + |Unlisted(ours, Elements(rows))| < cap then {}
        else set i | i in items && !(i.branch != "" && (i.branch in rows || i.branch in ours)) :: i.id
  }

  // A cap holds the item back: the open deliveries cannot be counted; or those listed and those of
  // this run not listed, counted together, reach the cap, and none of either is the item's own.
  ghost predicate Holds(cap: int, listing: Option<seq<string>>, item: Item, ours: seq<string>) {
    match listing
    case None => true
    case Some(rows) =>
      && |rows| + |(set b | b in ours && b != "" && b !in rows)| >= cap
      && (item.branch == "" || (item.branch !in rows && item.branch !in ours))
  }

  lemma RefusedMeans(cap: int, canWrite: bool, listing: Option<seq<string>>, items: seq<Item>, ours: seq<string>)
    ensures cap <= 0 || !canWrite ==> Refused(cap, canWrite, listing, items, ours) == {}
    ensures cap > 0 && canWrite ==>
              forall id :: id in Refused(cap, canWrite, listing, items, ours) <==>
                exists i :: i in items && i.id == id && Holds(cap, listing, i, ours)
  {
    if listing.Some? {
      assert Unlisted(ours, Elements(listing.value)) == set b | b in ours && b != "" && b !in listing.value;
    }
  }

  // `delivery_cap_refusals`, with `heads` built and updated in place.
  method DeliveryCapRefusals(cap: int, canWrite: bool, listing: Option<seq<string>>, items: seq<Item>,
                             ours: seq<string>) returns (refused: set<int>)
    ensures refused == Refused(cap, canWrite, listing, items, ours)
    ensures cap <= 0 || !canWrite ==> refused == {}
    ensures cap > 0 && canWrite ==>
              forall id :: id in refused <==> exists i :: i in items && i.id == id && Holds(cap, listing, i, ours)
  {
    RefusedMeans(cap, canWrite, listing, items, ours);
    var effective := if cap > 0 && canWrite then cap else 0;
    if effective == 0 {
      return {};
    }
    if listing.None? {
      return set i | i in items :: i.id;
    }
    var heads := Elements(listing.value);
    var count := |listing.value| + |Unlisted(ours, heads)|;
    heads := heads + Elements(ours);
    if count < effective {
      return {};
    }
    refused := set i | i in items && !(i.branch != "" && i.branch in heads) :: i.id;
  }

  // ---- one run ----

  // The pull requests open upstream, and the branches this run has delivered.
  datatype State = State(open: set<string>, delivered: seq<string>)

  // What is asked before the cap: nothing refuses; the item's priority does; the governor refuses
  // every item; or the run's time is up.
  datatype Gate = Clear | ItemRefused | RunRefused | TimeUp

  // What the world does around one item: what the gates say, pull requests people close before
  // the cap is asked, the listing it is shown, those they close before the delivery, the branch
  // the item's work is on, whether the delivery opens its pull request, and whether the run ends
  // on this item's work.
  datatype Turn = Turn(
    gate: Gate,
    closedBefore: set<string>,
    listing: Option<seq<string>>,
    closedAfter: set<string>,
    branch: string,
    delivers: bool,
    ends: bool)

  function AtListing(s: State, t: Turn): set<string> {
    s.open - t.closedBefore
  }

  // The listing shows everything open but what this run opened; and the delivery is on the
  // item's own branch, or a new one. It may show any closed branch still.
  ghost predicate Complete(s: State, item: Item, t: Turn) {
    && t.branch != "" && t.branch !in s.delivered && item.branch !in s.delivered
    && (item.branch != "" ==> t.branch == item.branch)
    && (t.listing.Some? ==> AtListing(s, t) <= Elements(t.listing.value) + Elements(s.delivered))
  }

  // The listing still shows the item's own branch, whose pull request is closed.
  ghost predicate OwnIsStale(s: State, item: Item, t: Turn) {
    item.branch != "" && t.listing.Some? && item.branch in t.listing.value && item.branch !in AtListing(s, t)
  }

  ghost predicate Honest(s: State, item: Item, t: Turn) {
    Complete(s, item, t) && !OwnIsStale(s, item, t)
  }

  function Deliver(s: State, t: Turn): State {
    var left := s.open - t.closedBefore - t.closedAfter;
    if t.delivers then State(left + {t.branch}, s.delivered + [t.branch]) else State(left, s.delivered)
  }

  predicate Capped(cap: int, s: State, item: Item, t: Turn) {
    item.id in Refused(cap, true, t.listing, [item], s.delivered)
  }

  // An item a gate or the cap refuses opens nothing; any other's delivery may.
  function Next(cap: int, s: State, item: Item, t: Turn): State {
    if t.gate != Clear || Capped(cap, s, item, t)
    then State(s.open - t.closedBefore - t.closedAfter, s.delivered)
    else Deliver(s, t)
  }

  // The item waits: a gate or the cap refused it.
  predicate ItemWaits(cap: int, s: State, item: Item, t: Turn) {
    t.gate == ItemRefused || t.gate == RunRefused || (t.gate == Clear && Capped(cap, s, item, t))
  }

  // No item is begun after this one.
  predicate EndsRun(cap: int, s: State, item: Item, t: Turn) {
    t.gate == RunRefused || t.gate == TimeUp || (t.gate == Clear && !Capped(cap, s, item, t) && t.ends)
  }

  function After(cap: int, s: State, items: seq<Item>, turns: seq<Turn>): State
    requires |items| == |turns|
  {
    if items == [] then s
    else Next(cap, After(cap, s, items[..|items| - 1], turns[..|turns| - 1]), items[|items| - 1], turns[|turns| - 1])
  }

  ghost predicate AllHonest(cap: int, s: State, items: seq<Item>, turns: seq<Turn>)
    requires |items| == |turns|
  {
    forall k :: 0 <= k < |items| ==> Honest(After(cap, s, items[..k], turns[..k]), items[k], turns[k])
  }

  // The items that wait.
  function Waits(cap: int, s: State, items: seq<Item>, turns: seq<Turn>): set<int>
    requires |items| == |turns|
  {
    if items == [] then {}
    else
      var last := |items| - 1;
      Waits(cap, s, items[..last], turns[..last])
      + (if ItemWaits(cap, After(cap, s, items[..last], turns[..last]), items[last], turns[last])
          then {items[last].id} else {})
  }

  // The cap alone keeps the item from its turn.
  ghost predicate HeldBack(cap: int, s: State, item: Item, t: Turn) {
    t.gate == Clear && cap > 0 && Holds(cap, t.listing, item, s.delivered)
  }

  // The item waits for a later run: its own priority or the governor refused it, or the cap did.
  ghost predicate WaitsAt(cap: int, s: State, items: seq<Item>, turns: seq<Turn>, j: nat)
    requires j < |items| == |turns|
  {
    turns[j].gate == ItemRefused || turns[j].gate == RunRefused
        || HeldBack(cap, After(cap, s, items[..j], turns[..j]), items[j], turns[j])
  }

  // The run is over with the item: the governor refused, the time was up, or its own work ended it.
  ghost predicate LastAt(cap: int, s: State, items: seq<Item>, turns: seq<Turn>, j: nat)
    requires j < |items| == |turns|
  {
    match turns[j].gate
    case RunRefused => true
    case TimeUp => true
    case ItemRefused => false
    case Clear => turns[j].ends && !HeldBack(cap, After(cap, s, items[..j], turns[..j]), items[j], turns[j])
  }

  // The item's turn ends with its pull request: nothing held it back, and the delivery opened one.
  ghost predicate DeliversAt(cap: int, s: State, items: seq<Item>, turns: seq<Turn>, j: nat)
    requires j < |items| == |turns|
  {
    && turns[j].gate == Clear && turns[j].delivers
    && !HeldBack(cap, After(cap, s, items[..j], turns[..j]), items[j], turns[j])
  }

  // What the run has delivered: the branches of those turns, on top of what it began with.
  lemma {:induction false} DeliveredExactly(cap: int, s: State, items: seq<Item>, turns: seq<Turn>, b: string)
    requires |items| == |turns|
    ensures b in After(cap, s, items, turns).delivered <==>
              || b in s.delivered
              || exists j :: 0 <= j < |items| && turns[j].branch == b && DeliversAt(cap, s, items, turns, j)
  {
    hide Capped, HeldBack;
    if items != [] {
      var n := |items| - 1;
      var front, before := items[..n], turns[..n];
      DeliveredExactly(cap, s, front, before, b);
      CappedIsHeldBack(cap, After(cap, s, front, before), items[n], turns[n]);
      forall j | 0 <= j < n ensures DeliversAt(cap, s, items, turns, j) <==> DeliversAt(cap, s, front, before, j) {
        assert items[..j] == front[..j] && turns[..j] == before[..j];
      }
    }
  }

  lemma CappedIsHeldBack(cap: int, s: State, item: Item, t: Turn)
    ensures HeldBack(cap, s, item, t) <==> t.gate == Clear && Capped(cap, s, item, t)
  {
    RefusedMeans(cap, true, t.listing, [item], s.delivered);
    assert item in [item];
  }

  lemma EndsIsLast(cap: int, s: State, items: seq<Item>, turns: seq<Turn>, j: nat)
    requires j < |items| == |turns|
    ensures EndsAt(cap, s, items, turns, j) <==> LastAt(cap, s, items, turns, j)
  {
    hide Capped, HeldBack;
    CappedIsHeldBack(cap, After(cap, s, items[..j], turns[..j]), items[j], turns[j]);
  }

  lemma {:induction false} WaitsExactly(cap: int, s: State, items: seq<Item>, turns: seq<Turn>, id: int)
    requires |items| == |turns|
    ensures id in Waits(cap, s, items, turns) <==>
              exists j :: 0 <= j < |items| && items[j].id == id && WaitsAt(cap, s, items, turns, j)
  {
    hide Capped, HeldBack, After;
    if items != [] {
      var n := |items| - 1;
      var front, before := items[..n], turns[..n];
      WaitsExactly(cap, s, front, before, id);
      CappedIsHeldBack(cap, After(cap, s, front, before), items[n], turns[n]);
      forall j | 0 <= j < n ensures WaitsAt(cap, s, items, turns, j) <==> WaitsAt(cap, s, front, before, j) {
        assert items[..j] == front[..j] && turns[..j] == before[..j];
      }
    }
  }

  lemma AfterOneMore(cap: int, s: State, items: seq<Item>, turns: seq<Turn>, i: nat)
    requires |items| == |turns| && i < |items|
    ensures var before := After(cap, s, items[..i], turns[..i]);
            && After(cap, s, items[..i + 1], turns[..i + 1]) == Next(cap, before, items[i], turns[i])
            && Waits(cap, s, items[..i + 1], turns[..i + 1])
               == Waits(cap, s, items[..i], turns[..i]) + (if ItemWaits(cap, before, items[i], turns[i])
                   then {items[i].id} else {})
  {
    assert items[..i + 1][..i] == items[..i] && turns[..i + 1][..i] == turns[..i];
  }

  lemma NothingBegun(cap: int, s: State)
    ensures After(cap, s, [], []) == s && Waits(cap, s, [], []) == {}
  {}

  ghost predicate EndsAt(cap: int, s: State, items: seq<Item>, turns: seq<Turn>, i: nat)
    requires |items| == |turns| && i < |items|
  {
    EndsRun(cap, After(cap, s, items[..i], turns[..i]), items[i], turns[i])
  }

  lemma EndsAtIs(cap: int, s: State, items: seq<Item>, turns: seq<Turn>, i: nat)
    requires |items| == |turns| && i < |items|
    ensures EndsAt(cap, s, items, turns, i) == EndsRun(cap, After(cap, s, items[..i], turns[..i]), items[i], turns[i])
  {}

  // The item loop of `cmd_run`, as far as the gates and the cap go: each item is asked on its own,
  // with the branches delivered so far; one refused alone waits and the loop goes on. It begins
  // `reached` of the items: all of them, or those up to the first that ends the run.
  method RunItems(cap: int, ghost s: State, items: seq<Item>, turns: seq<Turn>)
    returns (delivered: seq<string>, waiting: set<int>, reached: nat, ghost end: State)
    requires |items| == |turns| && s.delivered == []
    ensures reached <= |items|
    ensures end == After(cap, s, items[..reached], turns[..reached]) && delivered == end.delivered
    ensures waiting == Waits(cap, s, items[..reached], turns[..reached])
    ensures forall j :: 0 <= j < reached - 1 ==> !LastAt(cap, s, items, turns, j)
    ensures reached < |items| ==> reached > 0 && LastAt(cap, s, items, turns, reached - 1)
    ensures forall id :: id in waiting <==>
              exists j :: 0 <= j < reached && items[j].id == id && WaitsAt(cap, s, items, turns, j)
  {
    hide EndsAt, Refused, Unlisted, After, Waits, LastAt, WaitsAt;
    NothingBegun(cap, s);
    delivered, waiting, reached, end := [], {}, 0, s;
    while reached < |items|
      invariant 0 <= reached <= |items|
      invariant end == After(cap, s, items[..reached], turns[..reached]) && delivered == end.delivered
      invariant waiting == Waits(cap, s, items[..reached], turns[..reached])
      invariant forall j :: 0 <= j < reached ==> !EndsAt(cap, s, items, turns, j)
    {
      var item, t := items[reached], turns[reached];
      AfterOneMore(cap, s, items, turns, reached);
      assert EndsAt(cap, s, items, turns, reached) <==>
               EndsRun(cap, end, item, t) by { EndsAtIs(cap, s, items, turns, reached); }
      end := Next(cap, end, item, t);
      reached := reached + 1;
      if t.gate == TimeUp {
        break;
      }
      if t.gate != Clear {
        waiting := waiting + {item.id};
        if t.gate == RunRefused {
          break;
        }
        continue;
      }
      var refused := DeliveryCapRefusals(cap, true, t.listing, [item], delivered);
      if item.id in refused {
        waiting := waiting + {item.id};
        continue;
      }
      if t.delivers {
        delivered := delivered + [t.branch];
      }
      if t.ends {
        break;
      }
    }
    forall j | 0 <= j < reached ensures EndsAt(cap, s, items, turns, j) <==> LastAt(cap, s, items, turns, j) {
      EndsIsLast(cap, s, items, turns, j);
    }
    forall id ensures id in waiting <==>
        exists j :: 0 <= j < reached && items[j].id == id && WaitsAt(cap, s, items, turns, j) {
      WaitsExactly(cap, s, items[..reached], turns[..reached], id);
      WaitsInFront(cap, s, items, turns, reached);
    }
  }

  lemma WaitsInFront(cap: int, s: State, items: seq<Item>, turns: seq<Turn>, n: nat)
    requires n <= |items| == |turns|
    ensures forall j :: 0 <= j < n ==>
              (WaitsAt(cap, s, items, turns, j) <==> WaitsAt(cap, s, items[..n], turns[..n], j))
  {
    hide HeldBack, After;
    forall j | 0 <= j < n
      ensures WaitsAt(cap, s, items, turns, j) <==> WaitsAt(cap, s, items[..n], turns[..n], j)
    {
      assert items[..n][..j] == items[..j] && turns[..n][..j] == turns[..j];
    }
  }

  // With no cap no item whose gates are clear waits.
  lemma UncappedNeverHoldsBack(cap: int, s: State, item: Item, t: Turn)
    requires cap <= 0 && t.gate == Clear
    ensures !HeldBack(cap, s, item, t) && !ItemWaits(cap, s, item, t)
  {
    CappedIsHeldBack(cap, s, item, t);
  }

  // ---- the cap holds ----

  lemma {:induction false} CountDistinct(rows: seq<string>)
    ensures |Elements(rows)| <= |rows|
  {
    if rows != [] {
      CountDistinct(rows[1..]);
      assert rows == [rows[0]] + rows[1..];
      assert Elements(rows) == {rows[0]} + Elements(rows[1..]);
    } else {
      assert Elements(rows) == {};
    }
  }

  lemma {:induction false} SubsetCount<T>(a: set<T>, b: set<T>)
    requires a <= b
    ensures |a| <= |b|
  {
    if a != {} {
      var x :| x in a;
      SubsetCount(a - {x}, b - {x});
    }
  }

  function Count(s: State, rows: seq<string>): nat {
    |rows| + |Unlisted(s.delivered, Elements(rows))|
  }

  // What is listed and what this run delivered, counted together, covers what is open.
  lemma CountCovers(s: State, rows: seq<string>, open: set<string>)
    requires open <= Elements(rows) + Elements(s.delivered) && "" !in s.delivered
    ensures |open| <= Count(s, rows)
  {
    var unlisted := Unlisted(s.delivered, Elements(rows));
    assert open <= Elements(rows) + unlisted;
    SubsetCount(open, Elements(rows) + unlisted);
    assert |Elements(rows) + unlisted| <= |Elements(rows)| + |unlisted|;
    CountDistinct(rows);
  }

  lemma CappedIff(cap: int, s: State, item: Item, t: Turn)
    requires cap > 0
    ensures Capped(cap, s, item, t) <==>
              t.listing.None? || (Count(s, t.listing.value) >= cap
                                  && !(item.branch != ""
                                      && (item.branch in t.listing.value || item.branch in s.delivered)))
  {
    assert item in [item];
  }

  // A turn with a complete listing passes the bound exactly when it opens the pull request of a
  // branch still listed though closed, past a full count, with the bound met by the rest.
  lemma PassesExactly(cap: int, s: State, item: Item, t: Turn, bound: int)
    requires cap > 0 && cap <= bound && |s.open| <= bound && "" !in s.delivered
    requires Complete(s, item, t)
    ensures |Next(cap, s, item, t).open| > bound <==>
              && t.gate == Clear && OwnIsStale(s, item, t) && t.delivers && Count(s, t.listing.value) >= cap
              && |s.open - t.closedBefore - t.closedAfter| == bound
    ensures "" !in Next(cap, s, item, t).delivered
  {
    var seen := AtListing(s, t);
    var left := s.open - t.closedBefore - t.closedAfter;
    hide Capped, Count, Unlisted;
    CappedIff(cap, s, item, t);
    SubsetCount(seen, s.open);
    SubsetCount(left, seen);
    if t.gate == Clear && !Capped(cap, s, item, t) && t.delivers {
      CountCovers(s, t.listing.value, seen);
      if Count(s, t.listing.value) >= cap {
        assert item.branch in t.listing.value && t.branch == item.branch;
        if t.branch in seen {
          // Its branch is open already, so the delivery adds nothing.
          assert left + {t.branch} <= seen;
          SubsetCount(left + {t.branch}, seen);
        }
      }
    }
  }

  lemma OneItem(cap: int, s: State, item: Item, t: Turn, bound: int)
    requires cap > 0 && cap <= bound && |s.open| <= bound && "" !in s.delivered
    requires Honest(s, item, t)
    ensures |Next(cap, s, item, t).open| <= bound && "" !in Next(cap, s, item, t).delivered
  {
    PassesExactly(cap, s, item, t, bound);
  }

  // Over a whole run with complete listings that show no item's own closed branch, whatever people
  // close on the way and whatever other closed branches are listed still, the pull requests open
  // never exceed the cap, or what was open when the run began if that was more.
  lemma {:induction false} CapHolds(cap: int, s: State, items: seq<Item>, turns: seq<Turn>, k: nat)
    requires |items| == |turns| && k <= |items|
    requires cap > 0 && s.delivered == [] && AllHonest(cap, s, items, turns)
    ensures |After(cap, s, items[..k], turns[..k]).open| <= Max(|s.open|, cap)
    ensures "" !in After(cap, s, items[..k], turns[..k]).delivered
  {
    if k > 0 {
      CapHolds(cap, s, items, turns, k - 1);
      AfterOneMore(cap, s, items, turns, k - 1);
      OneItem(cap, After(cap, s, items[..k - 1], turns[..k - 1]), items[k - 1], turns[k - 1], Max(|s.open|, cap));
    }
  }

  // It happens: a listing that still shows the item's own closed pull request lets the item open
  // it again, past the cap.
  lemma StaleListingPassesTheCap() returns (s: State, item: Item, t: Turn)
    ensures t.branch == item.branch != "" && s.delivered == [] && |s.open| == 1
    ensures Complete(s, item, t) && OwnIsStale(s, item, t)
    ensures |Next(1, s, item, t).open| == 2
  {
    s, item := State({"a"}, []), Item(1, "b");
    t := Turn(Clear, {}, Some(["a", "b"]), {}, "b", true, false);
    assert item in [item];
    assert {"a"} - {} - {} + {"b"} == {"a", "b"} && "a" != "b";
  }
}
