// The protected paths of harness/clone.py, and why a path printed on several lines still shows.
module ProtectedPaths {
  import opened Prelude
  import opened Strings

  const PROTECTED := "/.github/"

  function Slashed(path: string): string {
    seq(|path|, i requires 0 <= i < |path| => if path[i] == '\\' then '/' else path[i])
  }

  predicate IsQuote(c: char) {
    c == '"'
  }

  predicate IsSlash(c: char) {
    c == '/'
  }

  function StripBoth(s: string, p: char -> bool): string {
    StripRight(StripLeft(s, p), p)
  }

  function DropDots(text: string): string {
    if |text| >= 2 && text[0] == '.' && text[1] == '/' then DropDots(text[2..]) else text
  }

  function Trimmed(text: string): string {
    StripLeft(DropDots(StripBoth(StripBoth(StripBoth(StripBoth(text, IsSpace), IsTick), IsSpace), IsQuote)), IsSlash)
  }

  // `normalise_repo_path`
  function NormalisePath(path: string): string {
    "/" + Trimmed(Slashed(path))
  }

  method NormaliseRepoPath(path: string) returns (normal: string)
    ensures normal == NormalisePath(path)
  {
    var text := StripBoth(StripBoth(StripBoth(StripBoth(Slashed(path), IsSpace), IsTick), IsSpace), IsQuote);
    ghost var start := text;
    while |text| >= 2 && text[0] == '.' && text[1] == '/'
      invariant DropDots(text) == DropDots(start)
      decreases |text|
    {
      text := text[2..];
    }
    normal := "/" + StripLeft(text, IsSlash);
  }

  // ---- the normal form, told on a path in its parts ----

  function Dots(k: nat): (d: string)
    ensures |d| == 2 * k
  {
    if k == 0 then "" else "./" + Dots(k - 1)
  }

  lemma {:induction false} DotsDrop(k: nat, rest: string)
    requires !(|rest| >= 2 && rest[0] == '.' && rest[1] == '/')
    ensures DropDots(Dots(k) + rest) == rest
  {
    if k == 0 {
      assert "" + rest == rest;
    } else {
      var text := Dots(k) + rest;
      assert text[2..] == Dots(k - 1) + rest;
      DotsDrop(k - 1, rest);
    }
  }

  lemma StripsNothing(text: string, p: char -> bool)
    requires text != "" && !p(text[0]) && !p(text[|text| - 1])
    ensures StripBoth(text, p) == text
  {}

  // A path with nothing to trim and no backslash loses its `./`s and slashes alone.
  lemma UntrimmedForm(text: string)
    requires text != "" && !IsSoft(text[0]) && !IsSoft(text[|text| - 1]) && Slashed(text) == text
    ensures NormalisePath(text) == "/" + StripLeft(DropDots(text), IsSlash)
  {
    hide Slashed, StripBoth, DropDots, StripLeft;
    StripsNothing(text, IsSpace);
    StripsNothing(text, IsTick);
    StripsNothing(text, IsQuote);
  }

  lemma {:induction false} DotsAreSlashed(k: nat)
    ensures forall i :: 0 <= i < |Dots(k)| ==> Dots(k)[i] != '\\'
    ensures k > 0 ==> Dots(k)[0] == '.'
  {
    if k > 0 { DotsAreSlashed(k - 1); }
  }

  lemma LeadIsSlashed(k: nat, slashes: string, rest: string)
    requires All(slashes, IsSlash) && Slashed(rest) == rest
    ensures Slashed(Dots(k) + slashes + rest) == Dots(k) + slashes + rest
  {
    hide Dots;
    DotsAreSlashed(k);
    var text := Dots(k) + slashes + rest;
    var lead := Dots(k) + slashes;
    forall i | 0 <= i < |text| ensures Slashed(text)[i] == text[i] {
      if i >= |lead| { assert text[i] == rest[i - |lead|] == Slashed(rest)[i - |lead|]; }
    }
    assert Slashed(text) == text;
  }

  // Any number of `./` and then of slashes before a path go, and one slash is put before the rest.
  lemma NormalFormIs(k: nat, slashes: string, rest: string)
    requires All(slashes, IsSlash) && rest != "" && !IsSlash(rest[0]) && Slashed(rest) == rest
    requires !IsSoft(rest[0]) && !IsSoft(rest[|rest| - 1])
    requires !(|rest| >= 2 && rest[0] == '.' && rest[1] == '/')
    ensures NormalisePath(Dots(k) + slashes + rest) == "/" + rest
  {
    hide Dots, NormalisePath, Slashed, DropDots, StripLeft;
    var tail := slashes + rest;
    var text := Dots(k) + tail;
    assert Dots(k) + slashes + rest == text;
    DotsAreSlashed(k);
    LeadIsSlashed(k, slashes, rest);
    assert text[|text| - 1] == rest[|rest| - 1];
    assert text[0] == if k > 0 then '.' else if slashes != "" then slashes[0] else rest[0];
    UntrimmedForm(text);
    DotsDrop(k, tail);
    StripLeftPast(slashes, rest, IsSlash);
  }

  // The path is one no harness commit may publish.
  predicate IsProtected(path: string) {
    Strip(path) != "" && Occurs(NormalisePath(path), PROTECTED)
  }

  // `protected_paths_in`
  function ProtectedIn(paths: seq<string>): seq<string> {
    Filtered(IsProtected, paths)
  }

  // ---- the strips on the right do not matter ----

  // What a strip on either side may drop. No character of the marker is.
  predicate IsSoft(c: char) {
    IsSpace(c) || c == '`' || c == '"'
  }

  function LeftForm(text: string): string {
    LateForm(StripLeft(StripLeft(StripLeft(text, IsSpace), IsTick), IsSpace))
  }

  function LateForm(text: string): string {
    StripLeft(DropDots(StripLeft(text, IsQuote)), IsSlash)
  }

  lemma SoftLeft(tail: string, p: char -> bool) returns (rest: string)
    requires All(tail, IsSoft)
    ensures rest == StripLeft(tail, p) && All(rest, IsSoft)
  {
    hide IsSoft;
    StripLeftParts(tail, p);
    rest := StripLeft(tail, p);
    var n := |tail| - |rest|;
    forall k | 0 <= k < |rest| ensures IsSoft(rest[k]) { assert rest[k] == tail[n + k]; }
  }

  lemma {:induction false} StripLeftTail(y: string, tail: string, p: char -> bool) returns (rest: string)
    requires All(tail, IsSoft)
    ensures StripLeft(y + tail, p) == StripLeft(y, p) + rest && All(rest, IsSoft)
  {
    if y == "" {
      rest := SoftLeft(tail, p);
      assert y + tail == tail;
    } else {
      assert (y + tail)[1..] == y[1..] + tail;
      rest := tail;
      if p(y[0]) { rest := StripLeftTail(y[1..], tail, p); }
    }
  }

  lemma StripBothTail(y: string, tail: string, p: char -> bool) returns (rest: string)
    requires All(tail, IsSoft) && forall c :: p(c) ==> IsSoft(c)
    ensures StripLeft(y + tail, p) == StripBoth(y, p) + rest && All(rest, IsSoft)
  {
    var more := StripLeftTail(y, tail, p);
    var left := StripLeft(y, p);
    StripRightParts(left, p);
    var gone := left[|StripBoth(y, p)|..];
    rest := gone + more;
    assert StripBoth(y, p) + gone + more == StripBoth(y, p) + rest;
  }

  lemma {:induction false} DropDotsTail(y: string, tail: string)
    requires All(tail, IsSoft)
    ensures DropDots(y + tail) == DropDots(y) + tail
  {
    if |y| >= 2 && y[0] == '.' && y[1] == '/' {
      assert (y + tail)[2..] == y[2..] + tail;
      DropDotsTail(y[2..], tail);
    } else if |y| < 2 && tail != "" {
      assert IsSoft(tail[0]) && (y + tail)[|y|] == tail[0];
    } else {
      assert |y| >= 2 ==> (y + tail)[0] == y[0] && (y + tail)[1] == y[1];
      assert tail == "" ==> y + tail == y;
    }
  }

  // The trimmed text is the one stripped on the left alone, less a soft end.
  lemma LeftFormOf(text: string) returns (tail: string)
    ensures LeftForm(text) == Trimmed(text) + tail && All(tail, IsSoft)
  {
    hide StripLeft, StripBoth, DropDots, IsSoft;
    assert text + "" == text;
    SoftAre();
    var t0 := StripBothTail(text, "", IsSpace);
    var y1 := StripBoth(text, IsSpace);
    var t1 := StripBothTail(y1, t0, IsTick);
    var y2 := StripBoth(y1, IsTick);
    var t2 := StripBothTail(y2, t1, IsSpace);
    var y3 := StripBoth(y2, IsSpace);
    var t3 := StripBothTail(y3, t2, IsQuote);
    DropDotsTail(StripBoth(y3, IsQuote), t3);
    tail := StripLeftTail(DropDots(StripBoth(y3, IsQuote)), t3, IsSlash);
  }

  lemma SoftAre()
    ensures forall c :: IsSpace(c) || IsTick(c) || IsQuote(c) ==> IsSoft(c)
  {}

  // ---- what a protected path shows ----

  // The marker stands in the text, or the text begins with all of it but its slash.
  ghost predicate HoldsMarker(text: string) {
    StartsWith(text, PROTECTED[1..]) || exists r :: At(text, PROTECTED, r)
  }

  lemma AtChars(text: string, r: int)
    requires At(text, PROTECTED, r)
    ensures forall k :: 0 <= k < 9 ==> text[r + k] == PROTECTED[k]
  {
    forall k | 0 <= k < 9 ensures text[r + k] == PROTECTED[k] {
      assert text[r..r + 9][k] == text[r + k];
    }
  }

  lemma StartChars(text: string)
    requires StartsWith(text, PROTECTED[1..])
    ensures forall k :: 0 <= k < 8 ==> text[k] == PROTECTED[1..][k]
  {
    assert forall k :: 0 <= k < 8 ==> text[..8][k] == text[k];
  }

  lemma NoStart(text: string, k: nat)
    requires k < 8 && k < |text| && text[k] != PROTECTED[1..][k]
    ensures !StartsWith(text, PROTECTED[1..])
  {
    if |text| >= 8 { assert text[..8][k] == text[k]; }
  }

  lemma NotAt(text: string, r: int)
    requires 0 <= r && r + 9 <= |text| && text[r] != '/'
    ensures !At(text, PROTECTED, r)
  {
    assert text[r..r + 9][0] == text[r];
  }

  lemma NoSpaceInMarker()
    ensures forall k :: 0 <= k < 9 ==> !IsSpace(PROTECTED[k])
  {}

  lemma NoSpaceAt(text: string, r: int, k: nat)
    requires At(text, PROTECTED, r) && k < 9
    ensures !IsSpace(text[r + k])
  {
    NoSpaceInMarker();
    AtChars(text, r);
    assert text[r + k] == PROTECTED[k];
  }

  lemma MarkerTail(text: string, tail: string)
    requires All(tail, IsSoft)
    ensures HoldsMarker(text + tail) <==> HoldsMarker(text)
  {
    var all := text + tail;
    forall k | |text| <= k < |all| ensures all[k] != '/' {
      assert all[k] == tail[k - |text|] && IsSoft(tail[k - |text|]);
    }
    forall r | At(all, PROTECTED, r) ensures At(text, PROTECTED, r) {
      AtChars(all, r);
      assert all[r + 8] == '/';
      assert all[r..r + 9] == text[r..r + 9];
    }
    forall r | At(text, PROTECTED, r) ensures At(all, PROTECTED, r) {
      assert all[r..r + 9] == text[r..r + 9];
    }
    if StartsWith(all, PROTECTED[1..]) {
      StartChars(all);
      assert all[7] == '/';
      assert all[..8] == text[..8];
    }
    if StartsWith(text, PROTECTED[1..]) { assert all[..8] == text[..8]; }
  }

  lemma SlashHolds(text: string)
    ensures Occurs("/" + text, PROTECTED) <==> HoldsMarker(text)
  {
    var all := "/" + text;
    forall r | r > 0 ensures At(all, PROTECTED, r) <==> At(text, PROTECTED, r - 1) {
      if r + 9 <= |all| { assert all[r..r + 9] == text[r - 1..r + 8]; }
    }
    if |text| >= 8 { assert all[0..9] == "/" + text[..8] && PROTECTED == "/" + PROTECTED[1..]; }
    assert At(all, PROTECTED, 0) <==> StartsWith(text, PROTECTED[1..]);
    if exists r :: At(text, PROTECTED, r) {
      var r :| At(text, PROTECTED, r);
      assert At(all, PROTECTED, r + 1);
    }
  }

  lemma StripKeepsMarker(text: string, p: char -> bool, r: int)
    requires !p('/') && At(text, PROTECTED, r)
    ensures exists s :: At(StripLeft(text, p), PROTECTED, s)
  {
    StripLeftParts(text, p);
    var left := StripLeft(text, p);
    var n := |text| - |left|;
    AtChars(text, r);
    assert text[r + 0] == PROTECTED[0] == '/';
    forall k | 0 <= k < n ensures p(text[k]) { assert text[..n][k] == text[k]; }
    assert r >= n;
    assert text[n..] == left;
    AtLater(text, n, r);
  }

  lemma AtLater(text: string, n: nat, r: int)
    requires n <= r && n <= |text| && At(text, PROTECTED, r)
    ensures At(text[n..], PROTECTED, r - n)
  {
    assert text[n..][r - n..r - n + 9] == text[r..r + 9];
  }

  lemma {:induction false} DotsKeepMarker(text: string)
    requires HoldsMarker(text)
    ensures HoldsMarker(DropDots(text))
  {
    if |text| >= 2 && text[0] == '.' && text[1] == '/' {
      NoStart(text, 1);
      var r :| At(text, PROTECTED, r);
      AtChars(text, r);
      assert text[r] == '/';
      if r == 1 {
        assert text[2..][..8] == text[1..10][1..];
      } else {
        assert text[r..r + 9] == text[2..][r - 2..r + 7];
        assert At(text[2..], PROTECTED, r - 2);
      }
      DotsKeepMarker(text[2..]);
    }
  }

  lemma {:induction false} SlashesKeepMarker(text: string)
    requires HoldsMarker(text)
    ensures HoldsMarker(StripLeft(text, IsSlash))
  {
    if text != "" && text[0] == '/' {
      NoStart(text, 0);
      var r :| At(text, PROTECTED, r);
      if r == 0 {
        assert text[1..][..8] == text[0..9][1..];
      } else {
        assert text[r..r + 9] == text[1..][r - 1..r + 8];
        assert At(text[1..], PROTECTED, r - 1);
      }
      SlashesKeepMarker(text[1..]);
    }
  }

  lemma MarkerStays(text: string, r: int)
    requires At(text, PROTECTED, r)
    ensures HoldsMarker(LeftForm(text))
  {
    hide StripLeft, DropDots, At;
    StripKeepsMarker(text, IsSpace, r);
    var a := StripLeft(text, IsSpace);
    var i :| At(a, PROTECTED, i);
    StripKeepsMarker(a, IsTick, i);
    var b := StripLeft(a, IsTick);
    var j :| At(b, PROTECTED, j);
    StripKeepsMarker(b, IsSpace, j);
    var c := StripLeft(b, IsSpace);
    var k :| At(c, PROTECTED, k);
    StripKeepsMarker(c, IsQuote, k);
    DotsKeepMarker(StripLeft(c, IsQuote));
    SlashesKeepMarker(DropDots(StripLeft(c, IsQuote)));
  }

  // A text's end, in a text.
  ghost predicate EndsWith(text: string, end: string) {
    |end| <= |text| && text[|text| - |end|..] == end
  }

  lemma StripLeftEnd(text: string, p: char -> bool)
    ensures EndsWith(text, StripLeft(text, p))
  {
    StripLeftParts(text, p);
  }

  lemma {:induction false} DropDotsEnd(text: string)
    ensures EndsWith(text, DropDots(text))
  {
    if |text| >= 2 && text[0] == '.' && text[1] == '/' {
      DropDotsEnd(text[2..]);
    }
  }

  lemma EndOfEnd(a: string, b: string, c: string)
    requires EndsWith(a, b) && EndsWith(b, c)
    ensures EndsWith(a, c)
  {
    assert a[|a| - |c|..] == b[|b| - |c|..];
  }

  lemma LeftFormEnd(text: string)
    ensures EndsWith(text, LeftForm(text))
  {
    hide StripLeft, DropDots, EndsWith;
    var a := StripLeft(text, IsSpace);
    var b := StripLeft(a, IsTick);
    var c := StripLeft(b, IsSpace);
    var d := StripLeft(c, IsQuote);
    StripLeftEnd(text, IsSpace);
    StripLeftEnd(a, IsTick);
    StripLeftEnd(b, IsSpace);
    StripLeftEnd(c, IsQuote);
    DropDotsEnd(d);
    StripLeftEnd(DropDots(d), IsSlash);
    EndOfEnd(text, a, b);
    EndOfEnd(text, b, c);
    EndOfEnd(text, c, d);
    EndOfEnd(text, d, DropDots(d));
    EndOfEnd(text, DropDots(d), LeftForm(text));
  }

  lemma AtEnd(text: string, end: string, r: int)
    requires EndsWith(text, end) && At(end, PROTECTED, r)
    ensures At(text, PROTECTED, |text| - |end| + r)
  {
    var n := |text| - |end|;
    assert end[r..r + 9] == text[n + r..n + r + 9];
  }

  // The text begins with the marker but its slash, once stripped on the left.
  ghost predicate Leads(text: string) {
    StartsWith(LeftForm(text), PROTECTED[1..])
  }

  // A path is protected exactly when the marker stands in it, or it leads with it.
  lemma MarkedIff(text: string)
    ensures Occurs("/" + Trimmed(text), PROTECTED) <==> Leads(text) || exists r :: At(text, PROTECTED, r)
  {
    hide LeftForm, Trimmed;
    var tail := LeftFormOf(text);
    SlashHolds(Trimmed(text));
    MarkerTail(Trimmed(text), tail);
    LeftFormEnd(text);
    if exists r :: At(text, PROTECTED, r) {
      var r :| At(text, PROTECTED, r);
      MarkerStays(text, r);
    }
    if HoldsMarker(LeftForm(text)) && !Leads(text) {
      var r :| At(LeftForm(text), PROTECTED, r);
      AtEnd(text, LeftForm(text), r);
    }
  }

  // ---- a space never makes a protected path ----

  lemma {:induction false} StripAcross(a: string, c: char, b: string, p: char -> bool)
    ensures StripLeft(a + [c] + b, p)
         == if StripLeft(a, p) != "" then StripLeft(a, p) + [c] + b else if p(c) then StripLeft(b, p) else [c] + b
  {
    var all := a + [c] + b;
    if a == "" {
      assert all == [c] + b && all[1..] == b;
    } else {
      assert all[1..] == a[1..] + [c] + b && all[0] == a[0];
      if p(a[0]) { StripAcross(a[1..], c, b, p); }
    }
  }

  lemma {:induction false} DropDotsAcross(a: string, c: char, b: string)
    requires IsSpace(c)
    ensures DropDots(a + [c] + b) == DropDots(a) + [c] + b
  {
    var all := a + [c] + b;
    if |a| >= 2 && a[0] == '.' && a[1] == '/' {
      assert all[2..] == a[2..] + [c] + b;
      DropDotsAcross(a[2..], c, b);
    } else {
      assert |a| < 2 ==> all[|a|] == c;
      assert |a| >= 2 ==> all[0] == a[0] && all[1] == a[1];
    }
  }

  lemma LateAcross(a: string, c: char, b: string)
    requires IsSpace(c) && StartsWith(LateForm(a + [c] + b), PROTECTED[1..])
    ensures StartsWith(LateForm(a), PROTECTED[1..])
  {
    var d := StripLeft(a, IsQuote);
    StripAcross(a, c, b, IsQuote);
    assert d == "" ==> d + [c] + b == [c] + b;
    DropDotsAcross(d, c, b);
    StripAcross(DropDots(d), c, b, IsSlash);
    SpaceLeadsNothing(LateForm(a), c, b);
  }

  lemma SpaceLeadsNothing(a: string, c: char, b: string)
    requires IsSpace(c)
    ensures StartsWith(a + [c] + b, PROTECTED[1..]) ==> StartsWith(a, PROTECTED[1..])
    ensures !StartsWith([c] + b, PROTECTED[1..])
  {
    var all := a + [c] + b;
    NoSpaceInMarker();
    assert all[|a|] == c;
    if StartsWith(all, PROTECTED[1..]) {
      StartChars(all);
      assert forall k :: 0 <= k < 8 ==> !IsSpace(PROTECTED[1..][k]);
      assert all[..8] == a[..8];
    }
    NoStart([c] + b, 0);
  }

  lemma TickLeadsNothing(s: string)
    requires s != "" && s[0] == '`'
    ensures !StartsWith(LateForm(s), PROTECTED[1..])
  {
    assert LateForm(s) == s;
    NoStart(s, 0);
  }

  // What leads after spaces alone leads from the beginning.
  lemma LateLeads(b: string)
    requires StartsWith(LateForm(StripLeft(b, IsSpace)), PROTECTED[1..])
    ensures Leads(b)
  {
    var s := StripLeft(b, IsSpace);
    StripLeftParts(b, IsSpace);
    if s != "" && s[0] == '`' {
      TickLeadsNothing(s);
    }
  }

  lemma LeadsAcross(a: string, c: char, b: string)
    requires IsSpace(c) && Leads(a + [c] + b)
    ensures Leads(a) || Leads(b)
  {
    hide LateForm, StripLeft;
    var s1 := StripLeft(a, IsSpace);
    StripAcross(a, c, b, IsSpace);
    if s1 != "" {
      var s2 := StripLeft(s1, IsTick);
      StripAcross(s1, c, b, IsTick);
      StripAcross("", c, b, IsSpace);
      NothingLeft();
      assert "" + [c] + b == [c] + b;
      StripAcross(s2, c, b, IsSpace);
      if s2 == "" || StripLeft(s2, IsSpace) == "" {
        LateLeads(b);
      } else {
        LateAcross(StripLeft(s2, IsSpace), c, b);
      }
    }
  }

  lemma NothingLeft()
    ensures StripLeft("", IsSpace) == ""
  {}

  lemma MarkerAcross(a: string, c: char, b: string, r: int)
    requires IsSpace(c) && At(a + [c] + b, PROTECTED, r)
    ensures At(a, PROTECTED, r) || At(b, PROTECTED, r - |a| - 1)
  {
    var all := a + [c] + b;
    assert all[|a|] == c;
    if r <= |a| < r + 9 {
      NoSpaceAt(all, r, |a| - r);
    } else if r + 9 <= |a| {
      assert all[r..r + 9] == a[r..r + 9];
    } else {
      assert all[r..r + 9] == b[r - |a| - 1..r - |a| + 8];
    }
  }

  lemma SlashedAcross(a: string, c: char, b: string)
    requires IsSpace(c)
    ensures Slashed(a + [c] + b) == Slashed(a) + [c] + Slashed(b)
  {}

  lemma BlankIsUnmarked(path: string)
    requires Strip(path) == ""
    ensures !Occurs(NormalisePath(path), PROTECTED)
  {
    var a, b := StripParts(path);
    var text := Slashed(path);
    assert All(text, IsSpace);
    StripLeftPast(text, "", IsSpace);
    assert text + "" == text;
    MarkedIff(text);
    forall r ensures !At(text, PROTECTED, r) {
      if 0 <= r && r + 9 <= |text| { NotAt(text, r); }
    }
  }

  lemma ProtectedIff(path: string)
    ensures IsProtected(path) <==> Leads(Slashed(path)) || exists r :: At(Slashed(path), PROTECTED, r)
  {
    hide Strip, Slashed, Trimmed, Leads, At;
    MarkedIff(Slashed(path));
    if Strip(path) == "" { BlankIsUnmarked(path); }
  }

  // A path cut at a space is protected only if one of its parts is.
  lemma SpaceProtectsNothing(a: string, c: char, b: string)
    requires IsSpace(c) && IsProtected(a + [c] + b)
    ensures IsProtected(a) || IsProtected(b)
  {
    hide IsProtected, Slashed, Leads, At;
    ProtectedIff(a + [c] + b);
    ProtectedIff(a);
    ProtectedIff(b);
    SlashedAcross(a, c, b);
    if Leads(Slashed(a + [c] + b)) {
      LeadsAcross(Slashed(a), c, Slashed(b));
    } else {
      var r :| At(Slashed(a + [c] + b), PROTECTED, r);
      MarkerAcross(Slashed(a), c, Slashed(b), r);
    }
  }

  lemma BreaksAreSpaces()
    ensures forall c :: IsBreak(c) ==> IsSpace(c)
  {}

  // So a protected path shows on one of its lines.
  lemma {:induction false} ALineIsProtected(path: string)
    requires IsProtected(path)
    ensures exists line :: line in SplitLines(path) && IsProtected(line)
    decreases |path|
  {
    hide IsProtected;
    var e := LineEnd(path, 0);
    NothingIsUnprotected();
    if e == |path| {
      assert path in SplitLines(path);
    } else {
      BreaksAreSpaces();
      var n := e + BreakLength(path, e);
      assert path == path[..e] + [path[e]] + path[e + 1..];
      SpaceProtectsNothing(path[..e], path[e], path[e + 1..]);
      if IsProtected(path[..e]) {
        assert path[..e] in SplitLines(path);
      } else {
        if n == e + 2 {
          assert path[e + 1..] == "" + ['\n'] + path[n..];
          SpaceProtectsNothing("", '\n', path[n..]);
        }
        ALineIsProtected(path[n..]);
        assert forall line :: line in SplitLines(path[n..]) ==> line in SplitLines(path);
      }
    }
  }

  lemma NothingIsUnprotected()
    ensures !IsProtected("")
  {
    AllSpaceStrips("");
  }

  // ---- space around a path ----

  lemma SlashedSpace(a: string)
    requires All(a, IsSpace)
    ensures All(Slashed(a), IsSpace)
  {}

  lemma SlashedConcat(a: string, m: string, b: string)
    ensures Slashed(a + m + b) == Slashed(a) + Slashed(m) + Slashed(b)
  {}

  lemma SlashedStrip(path: string)
    ensures Strip(Slashed(path)) == Strip(Slashed(Strip(path)))
  {
    var a, b := StripParts(path);
    var m := Strip(path);
    SlashedConcat(a, m, b);
    SlashedSpace(a);
    SlashedSpace(b);
    if m == "" {
      AllSpaceStrips(Slashed(a) + Slashed(b));
      assert Slashed(a) + "" + Slashed(b) == Slashed(a) + Slashed(b) && Slashed("") == "";
    } else {
      StripPadding(Slashed(a), Slashed(m), Slashed(b));
      StripOfStripped(Slashed(m));
    }
  }

  // Space around a path changes nothing about whether it is protected.
  lemma StrippedIsProtectedAlike(path: string)
    ensures IsProtected(Strip(path)) == IsProtected(path)
  {
    var a, b := StripParts(path);
    StripOfStripped(Strip(path));
    SlashedStrip(path);
  }
}
