// The trust file of harness/trust.py, read as a whole, and the gate that asks it.
module Trust {
  import opened Prelude
  import opened Strings
  import opened TrustLines

  // ---- what the file grants ----

  predicate Names(r: Reading, handle: string) {
    r.Accepted? && r.handle == handle
  }

  ghost predicate Named(lines: seq<Reading>, handle: string) {
    exists l :: l in lines && Names(l, handle)
  }

  // All the lines that name the handle pin it to one account, or none of them pins it.
  ghost predicate Agree(lines: seq<Reading>, handle: string) {
    forall l, m :: l in lines && m in lines && Names(l, handle) && Names(m, handle) ==> l.pin == m.pin
  }

  ghost predicate Granted(lines: seq<Reading>, handle: string) {
    Named(lines, handle) && Agree(lines, handle)
  }

  ghost predicate HighestLevel(lines: seq<Reading>, handle: string, level: nat) {
    && (exists l :: l in lines && Names(l, handle) && l.level == level)
    && forall l :: l in lines && Names(l, handle) ==> l.level <= level
  }

  ghost predicate PinnedTo(lines: seq<Reading>, handle: string, pin: Option<nat>) {
    exists l :: l in lines && Names(l, handle) && l.pin == pin
  }

  ghost predicate Unlevelled(lines: seq<Reading>, handle: string) {
    exists l :: l in lines && Names(l, handle) && !l.explicit
  }

  function TimesNamed(lines: seq<Reading>, handle: string): nat {
    if lines == [] then 0
    else TimesNamed(lines[..|lines| - 1], handle) + (if Names(lines[|lines| - 1], handle) then 1 else 0)
  }

  // What a file holds about one handle: the level and account granted, and what `doctor` names.
  datatype Grant = Grant(level: Option<nat>, vouched: Option<nat>, implicit: bool, duplicated: bool)

  const NoGrant := Grant(None, None, false, false)

  datatype TrustFile = TrustFile(
    levels: map<string, nat>,
    vouched: map<string, nat>,
    implicit: set<string>,
    duplicated: set<string>)
  {
    function GrantOf(h: string): Grant {
      Grant(if h in levels then Some(levels[h]) else None,
            if h in vouched then Some(vouched[h]) else None,
            h in implicit, h in duplicated)
    }
  }

  // What the lines meant for the handle: granted exactly when they agree, at the highest of
  // their levels, pinned to the account they name.
  ghost predicate Means(lines: seq<Reading>, h: string, g: Grant) {
    && (g.level.Some? <==> Granted(lines, h))
    && (g.level.Some? ==> HighestLevel(lines, h, g.level.value) && PinnedTo(lines, h, g.vouched))
    && (g.level.None? ==> g.vouched.None?)
    && (g.implicit <==> Granted(lines, h) && Unlevelled(lines, h))
    && (g.duplicated <==> Granted(lines, h) && TimesNamed(lines, h) > 1)
  }

  // ---- reading it ----

  // What the lines that name the handle add up to.
  datatype Sum = Sum(level: nat, pins: seq<Option<nat>>, implicit: bool)

  function SumOf(lines: seq<Reading>, h: string): Sum {
    if lines == [] then Sum(0, [], false)
    else
      var front, r := SumOf(lines[..|lines| - 1], h), lines[|lines| - 1];
      if Names(lines[|lines| - 1], h) then Sum(Max(r.level, front.level), front.pins + [r.pin], front.implicit
          || !r.explicit)
      else front
  }

  predicate OnePin(pins: seq<Option<nat>>) {
    pins != [] && forall k :: 0 <= k < |pins| ==> pins[k] == pins[0]
  }

  function Settle(s: Sum): Grant {
    if OnePin(s.pins) then Grant(Some(s.level), s.pins[0], s.implicit, |s.pins| > 1) else NoGrant
  }

  lemma SumOfMore(lines: seq<Reading>, line: Reading, h: string)
    ensures var s, r := SumOf(lines, h), line;
            SumOf(lines + [line], h)
            == if Names(line, h) then Sum(Max(r.level, s.level), s.pins + [r.pin], s.implicit || !r.explicit) else s
  {
    assert (lines + [line])[..|lines|] == lines;
  }

  ghost predicate GatheredAll(lines: seq<Reading>, levels: map<string, nat>, pins: map<string, seq<Option<nat>>>,
                              implicit: set<string>) {
    levels.Keys == pins.Keys && forall h :: Gathered(levels, pins, implicit, h, SumOf(lines, h))
  }

  lemma GatherLine(lines: seq<Reading>, r: Reading, levels: map<string, nat>, pins: map<string, seq<Option<nat>>>,
                   implicit: set<string>)
    requires GatheredAll(lines, levels, pins, implicit)
    ensures !r.Accepted? ==> GatheredAll(lines + [r], levels, pins, implicit)
    ensures r.Accepted? ==> GatheredAll(lines + [r],
                                        levels[r.handle := Max(r.level, LevelIn(levels, r.handle))],
                                        pins[r.handle := PinsIn(pins, r.handle) + [r.pin]],
                                        if r.explicit then implicit else implicit + {r.handle})
  {
    var more := lines + [r];
    forall h ensures SumOf(more, h) == if Names(r, h)
        then Sum(Max(r.level, SumOf(lines, h).level), SumOf(lines, h).pins + [r.pin], SumOf(lines, h).implicit
        || !r.explicit) else SumOf(lines, h) {
      SumOfMore(lines, r, h);
    }
    assert forall h :: Gathered(levels, pins, implicit, h, SumOf(lines, h));
  }

  function LevelIn(levels: map<string, nat>, h: string): nat {
    if h in levels then levels[h] else 0
  }

  function PinsIn(pins: map<string, seq<Option<nat>>>, h: string): seq<Option<nat>> {
    if h in pins then pins[h] else []
  }

  // `parse_trust`, but for the lists of refused lines: what it holds about each handle is what
  // the lines naming the handle add up to.
  method ParseTrust(text: string) returns (t: TrustFile)
    ensures forall h :: t.GrantOf(h) == Settle(SumOf(ReadLines(SplitLines(text)), h))
  {
    hide ReadLine, SplitLines;
    var lines := SplitLines(text);
    ghost var rs := ReadLines(lines);
    var levels: map<string, nat>, pins: map<string, seq<Option<nat>>>, implicit: set<string> := map[], map[], {};
    var i := 0;
    while i < |lines|
      invariant 0 <= i <= |lines|
      invariant GatheredAll(rs[..i], levels, pins, implicit)
    {
      var r := ReadLine(lines[i]);
      assert r == rs[i] && rs[..i + 1] == rs[..i] + [rs[i]];
      GatherLine(rs[..i], r, levels, pins, implicit);
      if r.Accepted? {
        if !r.explicit {
          implicit := implicit + {r.handle};
        }
        levels := levels[r.handle := Max(r.level, LevelIn(levels, r.handle))];
        pins := pins[r.handle := PinsIn(pins, r.handle) + [r.pin]];
      }
      i := i + 1;
    }
    assert rs[..|lines|] == rs;
    t := SettleAll(levels, pins, implicit, rs);
  }

  // The maps hold what the lines add up to for the handle.
  ghost predicate Gathered(levels: map<string, nat>, pins: map<string, seq<Option<nat>>>, implicit: set<string>,
                           h: string, s: Sum) {
    && (h in pins <==> s.pins != []) && (h in pins ==> pins[h] == s.pins)
    && (h in levels <==> s.pins != []) && (h in levels ==> levels[h] == s.level)
    && (h in implicit <==> s.implicit)
    && (s.pins == [] ==> s.level == 0 && !s.implicit)
  }

  // What the second loop of `parse_trust` leaves of one handle: no grant, unless all its lines name
  // one account or none of them names any.
  function SettleOne(t: TrustFile, pins: seq<Option<nat>>, h: string): TrustFile
    requires pins != []
  {
    if !OnePin(pins) then t.(levels := t.levels - {h})
    else
      var vouched := if pins[0].Some? then t.vouched[h := pins[0].value] else t.vouched;
      t.(vouched := vouched, duplicated := if |pins| > 1 then t.duplicated + {h} else t.duplicated)
  }

  // The handle is as the lines left it: a level, and nothing settled yet.
  ghost predicate Waiting(t: TrustFile, levels: map<string, nat>, h: string) {
    h in t.levels && h in levels && t.levels[h] == levels[h] && h !in t.vouched && h !in t.duplicated
  }

  lemma SettleOneTakes(t: TrustFile, levels: map<string, nat>, pins: map<string, seq<Option<nat>>>,
                       implicit: set<string>,
                       h: string, s: Sum)
    requires Gathered(levels, pins, implicit, h, s) && h in pins && Waiting(t, levels, h)
    ensures Taken(SettleOne(t, pins[h], h), implicit, h, s)
  {}

  lemma SettleOneKeeps(t: TrustFile, levels: map<string, nat>, pins: seq<Option<nat>>, implicit: set<string>,
                       h: string, k: string, s: Sum)
    requires pins != [] && k != h
    ensures Taken(SettleOne(t, pins, h), implicit, k, s) == Taken(t, implicit, k, s)
    ensures Waiting(SettleOne(t, pins, h), levels, k) == Waiting(t, levels, k)
  {}

  // The second loop of `parse_trust`.
  method SettleAll(levels: map<string, nat>, pins: map<string, seq<Option<nat>>>, implicit: set<string>,
                   ghost lines: seq<Reading>)
    returns (t: TrustFile)
    requires GatheredAll(lines, levels, pins, implicit)
    ensures forall h :: t.GrantOf(h) == Settle(SumOf(lines, h))
  {
    var left := pins.Keys;
    t := TrustFile(levels, map[], {}, {});
    assert forall h :: h !in left ==> Taken(t, implicit, h,
             SumOf(lines, h)) by { NoneLeft(lines, levels, pins, implicit); }
    assert forall h :: h in left ==> Waiting(t, levels, h);
    hide SumOf, Taken, Waiting;
    while left != {}
      invariant left <= pins.Keys
      invariant forall h :: h !in left ==> Taken(t, implicit, h, SumOf(lines, h))
      invariant forall h :: h in left ==> Waiting(t, levels, h)
      decreases left
    {
      var h :| h in left;
      assert Gathered(levels, pins, implicit, h, SumOf(lines, h));
      SettleOneTakes(t, levels, pins, implicit, h, SumOf(lines, h));
      ghost var before := t;
      forall k | k != h
        ensures Taken(SettleOne(before, pins[h], h), implicit, k, SumOf(lines, k))
                  == Taken(before, implicit, k, SumOf(lines, k))
        ensures Waiting(SettleOne(before, pins[h], h), levels, k) == Waiting(before, levels, k)
      {
        SettleOneKeeps(before, levels, pins[h], implicit, h, k, SumOf(lines, k));
      }
      if OnePin(pins[h]) {
        if pins[h][0].Some? {
          t := t.(vouched := t.vouched[h := pins[h][0].value]);
        }
        if |pins[h]| > 1 {
          t := t.(duplicated := t.duplicated + {h});
        }
      } else {
        t := t.(levels := t.levels - {h});
      }
      assert t == SettleOne(before, pins[h], h);
      left := left - {h};
    }
    forall h ensures t.(implicit := implicit * t.levels.Keys).GrantOf(h) == Settle(SumOf(lines, h)) {
      TakenIs(t, implicit, h, SumOf(lines, h));
    }
    t := t.(implicit := implicit * t.levels.Keys);
  }

  ghost predicate Taken(t: TrustFile, implicit: set<string>, h: string, s: Sum) {
    t.(implicit := implicit * t.levels.Keys).GrantOf(h) == Settle(s)
  }

  lemma TakenIs(t: TrustFile, implicit: set<string>, h: string, s: Sum)
    requires Taken(t, implicit, h, s)
    ensures t.(implicit := implicit * t.levels.Keys).GrantOf(h) == Settle(s)
  {}

  lemma NoneLeft(lines: seq<Reading>, levels: map<string, nat>, pins: map<string, seq<Option<nat>>>,
                 implicit: set<string>)
    requires GatheredAll(lines, levels, pins, implicit)
    ensures forall h :: h !in pins.Keys ==> Taken(TrustFile(levels, map[], {}, {}), implicit, h, SumOf(lines, h))
  {
    forall h | h !in pins.Keys ensures Taken(TrustFile(levels, map[], {}, {}), implicit, h, SumOf(lines, h)) {
      assert Gathered(levels, pins, implicit, h, SumOf(lines, h));
    }
  }

  // ---- what the file grants ----

  lemma {:induction false} SumMeans(lines: seq<Reading>, h: string)
    ensures var s := SumOf(lines, h);
            && |s.pins| == TimesNamed(lines, h)
            && (s.pins != [] <==> Named(lines, h))
            && (s.pins != [] ==> HighestLevel(lines, h, s.level))
            && (s.pins == [] ==> s.level == 0)
            && (forall p :: p in s.pins <==> PinnedTo(lines, h, p))
            && (s.implicit <==> Unlevelled(lines, h))
  {
    if lines != [] {
      var front, line := lines[..|lines| - 1], lines[|lines| - 1];
      assert lines == front + [line];
      SumMeans(front, h);
      LinesMore(front, line, h);
      HighestMore(front, line, h, SumOf(front, h).level);
    }
  }

  lemma LinesMore(lines: seq<Reading>, line: Reading, h: string)
    ensures Named(lines + [line], h) <==> Named(lines, h) || Names(line, h)
    ensures Unlevelled(lines + [line], h) <==> Unlevelled(lines, h) || (Names(line, h) && !line.explicit)
    ensures forall p :: PinnedTo(lines + [line], h, p) <==> PinnedTo(lines, h, p) || (Names(line, h) && line.pin == p)
  {
    assert forall l :: l in lines + [line] <==> l in lines || l == line;
  }

  lemma HighestMore(lines: seq<Reading>, line: Reading, h: string, level: nat)
    requires Named(lines, h) ==> HighestLevel(lines, h, level)
    requires !Named(lines, h) ==> level == 0
    ensures !Names(line, h) && Named(lines, h) ==> HighestLevel(lines + [line], h, level)
    ensures Names(line, h) ==> HighestLevel(lines + [line], h, Max(level, line.level))
  {
    var all := lines + [line];
    assert forall l :: l in all <==> l in lines || l == line;
    if Named(lines, h) {
      var l :| l in lines && Names(l, h) && l.level == level;
      assert l in all;
    }
    assert line in all;
  }

  lemma AgreeIff(lines: seq<Reading>, h: string, pins: seq<Option<nat>>)
    requires forall p :: p in pins <==> PinnedTo(lines, h, p)
    requires pins != [] <==> Named(lines, h)
    ensures Granted(lines, h) <==> OnePin(pins)
  {
    if OnePin(pins) {
      forall l, m | l in lines && m in lines && Names(l, h) && Names(m, h) ensures l.pin == m.pin {
        assert PinnedTo(lines, h, l.pin) && PinnedTo(lines, h, m.pin);
      }
    }
    forall k | 0 <= k < |pins| && Granted(lines, h) ensures pins[k] == pins[0] {
      assert pins[k] in pins && pins[0] in pins;
    }
  }

  // A handle is granted exactly when all its accepted lines agree on the vouch, at the maximum
  // of their levels.
  lemma GrantMeans(lines: seq<Reading>, h: string)
    ensures Means(lines, h, Settle(SumOf(lines, h)))
  {
    SumMeans(lines, h);
    var s := SumOf(lines, h);
    AgreeIff(lines, h, s.pins);
    if s.pins != [] { assert s.pins[0] in s.pins; }
  }

  lemma TimesNamedTakeOut(b: seq<Reading>, j: nat, h: string)
    requires j < |b|
    ensures TimesNamed(b, h) == TimesNamed(b[..j] + b[j + 1..], h) + (if Names(b[j], h) then 1 else 0)
  {
    var mid := [b[j]];
    assert b == b[..j] + mid + b[j + 1..];
    TimesNamedConcat(b[..j] + mid, b[j + 1..], h);
    TimesNamedConcat(b[..j], mid, h);
    TimesNamedConcat(b[..j], b[j + 1..], h);
    assert mid[..0] == [];
  }

  lemma {:induction false} TimesNamedPermute(a: seq<Reading>, b: seq<Reading>, h: string)
    requires multiset(a) == multiset(b)
    ensures TimesNamed(a, h) == TimesNamed(b, h)
    decreases |a|
  {
    if a == [] {
      assert |b| == |multiset(b)| == 0;
    } else {
      var j := PermutedTail(a, b);
      TimesNamedTakeOut(a, 0, h);
      TimesNamedTakeOut(b, j, h);
      assert a[..0] + a[1..] == a[1..];
      TimesNamedPermute(a[1..], b[..j] + b[j + 1..], h);
    }
  }

  lemma {:induction false} TimesNamedConcat(a: seq<Reading>, b: seq<Reading>, h: string)
    ensures TimesNamed(a + b, h) == TimesNamed(a, h) + TimesNamed(b, h)
  {
    if b == [] {
      assert a + b == a;
    } else {
      assert (a + b)[..|a + b| - 1] == a + b[..|b| - 1];
      TimesNamedConcat(a, b[..|b| - 1], h);
    }
  }

  // What the file means of a handle leaves nothing open.
  lemma MeansOneGrant(lines: seq<Reading>, h: string, g: Grant, k: Grant)
    requires Means(lines, h, g) && Means(lines, h, k)
    ensures g == k
  {
    if g.level.Some? {
      var l :| l in lines && Names(l, h) && l.level == g.level.value;
      var m :| m in lines && Names(m, h) && m.level == k.level.value;
      var p :| p in lines && Names(p, h) && p.pin == g.vouched;
      var q :| q in lines && Names(q, h) && q.pin == k.vouched;
    }
  }

  // The trust map does not depend on the order of the file's lines.
  lemma LineOrderDoesNotMatter(a: seq<string>, b: seq<string>, h: string)
    requires multiset(a) == multiset(b)
    ensures Settle(SumOf(ReadLines(a), h)) == Settle(SumOf(ReadLines(b), h))
  {
    MappedPermute(ReadLine, a, b);
    OrderDoesNotMatter(ReadLines(a), ReadLines(b), h);
  }

  lemma OrderDoesNotMatter(a: seq<Reading>, b: seq<Reading>, h: string)
    requires multiset(a) == multiset(b)
    ensures Settle(SumOf(a, h)) == Settle(SumOf(b, h))
  {
    GrantMeans(a, h);
    GrantMeans(b, h);
    TimesNamedPermute(a, b, h);
    assert forall l :: l in a <==> l in multiset(a);
    assert forall l :: l in b <==> l in multiset(b);
    MeansOneGrant(a, h, Settle(SumOf(a, h)), Settle(SumOf(b, h)));
  }

  // A line that names another handle, or none, never changes the handle's grant.
  lemma {:induction false} OtherLinesDoNotMatter(before: seq<Reading>, line: Reading, after: seq<Reading>, h: string)
    requires !Names(line, h)
    ensures SumOf(before + [line] + after, h) == SumOf(before + after, h)
  {
    if after == [] {
      assert before + [line] + after == before + [line] && before + after == before;
      SumOfMore(before, line, h);
    } else {
      var front, last := after[..|after| - 1], after[|after| - 1];
      OtherLinesDoNotMatter(before, line, front, h);
      assert before + [line] + after == (before + [line] + front) + [last]
               && before + after == (before + front) + [last];
      SumOfMore(before + [line] + front, last, h);
      SumOfMore(before + front, last, h);
    }
  }

  // Every vouched handle is granted a level.
  lemma VouchedAreGranted(s: Sum)
    ensures Settle(s).vouched.Some? ==> Settle(s).level.Some?
  {}

  // ---- the gate ----

  const AUTHOR_ASSOCIATIONS := {"OWNER", "MEMBER", "COLLABORATOR"}

  // An account id as a caller has it: a number, a text, a truth value by mistake, or nothing.
  datatype UserId = NoId | BoolId(flag: bool) | IntId(n: int) | TextId(text: string)

  // `parse_user_id`
  function ParseUserId(value: UserId): (r: Option<nat>)
    ensures r.Some? ==> r.value > 0
  {
    match value
    case NoId => None
    case BoolId(_) => None
    case IntId(n) => if n > 0 then Some(n) else None
    case TextId(text) =>
      var digits := Strip(text);
      if 1 <= |digits| <= 20 && AllDigits(digits) && NumberOf(digits) > 0 then Some(NumberOf(digits)) else None
  }

  // One account, whether it comes as a number or as its text, with any space around it.
  lemma UserIdTextIsItsNumber(n: nat, before: string, after: string)
    requires n > 0 && |Digits(n)| <= 20 && All(before, IsSpace) && All(after, IsSpace)
    ensures ParseUserId(TextId(before + Digits(n) + after)) == ParseUserId(IntId(n)) == Some(n)
  {
    var d := Digits(n);
    assert IsDigit(d[0]) && IsDigit(d[|d| - 1]);
    StripPadding(before, d, after);
  }

  // An account id is a text of one to twenty digits, not all of them zeros, with any space around it.
  lemma UserIdIsExact(text: string)
    ensures var digits := Strip(text);
            ParseUserId(TextId(text)).Some? <==>
              0 < |digits| < 21 && (forall k :: 0 <= k < |digits| ==> '0' <= digits[k] <= '9')
              && AllDigits(digits) && NumberOf(digits) != 0
  {
    hide Strip;
  }

  // The three words of GitHub that let a handle in, in any case and with any space around them.
  lemma AssociatedIs(before: string, word: string, after: string)
    requires All(before, IsSpace) && All(after, IsSpace)
    requires word != "" && !IsSpace(word[0]) && !IsSpace(word[|word| - 1])
    ensures Associated(before + word + after) <==>
              Upper(word) == "OWNER" || Upper(word) == "MEMBER" || Upper(word) == "COLLABORATOR"
  {
    hide Upper;
    StripPadding(before, word, after);
  }

  lemma NoWordIsNone(space: string)
    requires All(space, IsSpace)
    ensures !Associated(space)
  {
    AllSpaceStrips(space);
    assert Upper("") == "";
  }

  predicate Associated(association: string) {
    Upper(Strip(association)) in AUTHOR_ASSOCIATIONS
  }

  // `is_authorised`: the level must reach, and then either the vouched account or, for a line
  // that vouches for none, GitHub's own word.
  predicate Authorised(g: Grant, minLevel: int, association: string, userId: UserId) {
    && (match g.level case Some(level) => level case None => 0) >= minLevel
    && match g.vouched
       case Some(id) => ParseUserId(userId) == Some(id)
       case None => Associated(association)
  }

  // The gate, from the file's lines: the handle is granted and one of its lines reaches the level;
  // and the account is the one its lines vouch for or, when they vouch for none, GitHub's word
  // stands. Only a caller that asks for no level at all lets in a handle not granted.
  lemma AuthorisedExactly(lines: seq<Reading>, h: string, minLevel: int, association: string, userId: UserId)
    ensures Authorised(Settle(SumOf(lines, h)), minLevel, association, userId) <==>
              && (minLevel <= 0 || (Granted(lines, h) && Reaches(lines, h, minLevel)))
              && (if Granted(lines, h) && Vouching(lines, h)
                  then ParseUserId(userId).Some? && PinnedTo(lines, h, ParseUserId(userId))
                  else Associated(association))
  {
    hide Associated, ParseUserId;
    GrantMeans(lines, h);
    var g := Settle(SumOf(lines, h));
    if Granted(lines, h) {
      var l :| l in lines && Names(l, h) && l.pin == g.vouched;
      assert forall m :: m in lines && Names(m, h) ==> m.pin == l.pin;
    }
  }

  // Some line gives the handle the level, or a higher one.
  ghost predicate Reaches(lines: seq<Reading>, h: string, level: int) {
    exists l :: l in lines && Names(l, h) && l.level >= level
  }

  // Some line pins the handle to an account.
  ghost predicate Vouching(lines: seq<Reading>, h: string) {
    exists l :: l in lines && Names(l, h) && l.pin.Some?
  }

  // A line added for a handle already granted never lowers what it may do: it raises the level,
  // leaves it, or, disagreeing about the vouch, ends the grant altogether.
  lemma AddedLineRaisesOrRefuses(lines: seq<Reading>, line: Reading, h: string)
    requires Settle(SumOf(lines, h)).level.Some?
    ensures var g, k := Settle(SumOf(lines, h)), Settle(SumOf(lines + [line], h));
            k == NoGrant || (k.level.Some? && k.level.value >= g.level.value && k.vouched == g.vouched)
  {
    SumOfMore(lines, line, h);
    var pins, more := SumOf(lines, h).pins, SumOf(lines + [line], h).pins;
    assert more[0] == pins[0];
  }
}
