// The Python string operations the harness's readers and writers are built from.
module Strings {
  import opened Prelude

  // `str.isspace` on one character: the characters `str.strip` and `str.split` drop.
  predicate IsSpace(c: char) {
    || c == ' '
    || '\t' <= c <= '\r'
    || '\U{1C}' <= c <= '\U{1F}'
    || c in {'\U{85}', '\U{A0}', '\U{1680}', '\U{2028}', '\U{2029}', '\U{202F}', '\U{205F}', '\U{3000}'}
    || '\U{2000}' <= c <= '\U{200A}'
  }

  predicate IsAt(c: char) {
    c == '@'
  }

  const TICK := '`'

  predicate IsTick(c: char) {
    c == TICK
  }

  // Of both kinds of space there are, by their codes.
  lemma SpaceCodes(c: char)
    ensures IsSpace(c) <==>
              || 9 <= c as int <= 13 || 28 <= c as int <= 32 || c as int == 133 || c as int == 160
              || c as int == 5760 || 8192 <= c as int <= 8202 || c as int == 8232 || c as int == 8233
              || c as int == 8239 || c as int == 8287 || c as int == 12288
  {}

  lemma BreakCodes(c: char)
    ensures IsBreak(c) <==>
              || 10 <= c as int <= 13 || 28 <= c as int <= 30 || c as int == 133 || c as int == 8232
              || c as int == 8233
  {}

  // Lowering and raising move the ASCII letters by 32 and leave every other character.
  lemma CasesOf(s: string, k: nat)
    requires k < |s|
    ensures |Lower(s)| == |Upper(s)| == |s|
    ensures Lower(s)[k] as int == s[k] as int + (if 65 <= s[k] as int <= 90 then 32 else 0)
    ensures Upper(s)[k] as int == s[k] as int - (if 97 <= s[k] as int <= 122 then 32 else 0)
  {}

  function StripLeft(s: string, drop: char -> bool): string {
    if s != [] && drop(s[0]) then StripLeft(s[1..], drop) else s
  }

  function StripRight(s: string, drop: char -> bool): string {
    if s != [] && drop(s[|s| - 1]) then StripRight(s[..|s| - 1], drop) else s
  }

  // `s.strip()`
  function Strip(s: string): string {
    StripRight(StripLeft(s, IsSpace), IsSpace)
  }

  // `str.lower` on ASCII.
  function LowerChar(c: char): char {
    if 'A' <= c <= 'Z' then c + ('a' - 'A') else c
  }

  function Lower(s: string): string {
    seq(|s|, i requires 0 <= i < |s| => LowerChar(s[i]))
  }

  // `str.upper` on ASCII.
  function Upper(s: string): string {
    seq(|s|, i requires 0 <= i < |s| => if 'a' <= s[i] <= 'z' then s[i] - ('a' - 'A') else s[i])
  }

  predicate IsDigit(c: char) {
    '0' <= c <= '9'
  }

  function DigitValue(c: char): nat
    requires IsDigit(c)
  {
    (c - '0') as nat
  }

  function DigitChar(d: nat): char
    requires d < 10
  {
    '0' + (d as char)
  }

  // ---- lines ----

  // The characters `str.splitlines` ends a line at.
  predicate IsBreak(c: char) {
    '\n' <= c <= '\r' || '\U{1C}' <= c <= '\U{1E}' || c == '\U{85}' || c == '\U{2028}' || c == '\U{2029}'
  }

  // The first line end at or after `from`, or the length.
  function LineEnd(s: string, from: nat): (e: nat)
    requires from <= |s|
    ensures from <= e <= |s| && (e < |s| ==> IsBreak(s[e])) && forall k :: from <= k < e ==> !IsBreak(s[k])
    decreases |s| - from
  {
    if from == |s| || IsBreak(s[from]) then from else LineEnd(s, from + 1)
  }

  // A carriage return and the newline after it end one line.
  function BreakLength(s: string, e: nat): (n: nat)
    requires e < |s|
    ensures 1 <= n && e + n <= |s|
  {
    if s[e] == '\r' && e + 1 < |s| && s[e + 1] == '\n' then 2 else 1
  }

  // `str.splitlines`
  function SplitLines(s: string): seq<string> {
    if s == "" then []
    else
      var e := LineEnd(s, 0);
      if e == |s| then [s] else [s[..e]] + SplitLines(s[e + BreakLength(s, e)..])
  }

  ghost predicate OneLine(s: string) {
    forall k :: 0 <= k < |s| ==> !IsBreak(s[k])
  }

  // A line and a newline before any text are the first of its lines.
  lemma SplitLinesCons(line: string, rest: string)
    requires OneLine(line)
    ensures SplitLines(line + "\n" + rest) == [line] + SplitLines(rest)
  {
    var s := line + "\n" + rest;
    var e := LineEnd(s, 0);
    assert s[|line|] == '\n' && IsBreak(s[|line|]);
    assert e == |line| by {
      forall k | 0 <= k < |line| ensures !IsBreak(s[k]) { assert s[k] == line[k]; }
    }
    assert s[..e] == line && s[e + 1..] == rest;
  }

  // So are a line and a carriage return, whether or not a newline follows it.
  lemma ReturnEndsALine(line: string, rest: string)
    requires OneLine(line)
    ensures SplitLines(line + "\r\n" + rest) == [line] + SplitLines(rest)
    ensures rest == "" || rest[0] != '\n' ==> SplitLines(line + "\r" + rest) == [line] + SplitLines(rest)
  {
    hide SplitLines, OneLine;
    ReturnEnds(line, "\n" + rest);
    assert line + "\r" + ("\n" + rest) == line + "\r\n" + rest && ("\n" + rest)[1..] == rest;
    ReturnEnds(line, rest);
  }

  lemma ReturnEnds(line: string, rest: string)
    requires OneLine(line)
    ensures SplitLines(line + "\r" + rest)
         == [line] + SplitLines(if rest != "" && rest[0] == '\n' then rest[1..] else rest)
  {
    var s := line + "\r" + rest;
    var e := LineEnd(s, 0);
    assert s[|line|] == '\r' && IsBreak(s[|line|]);
    assert e == |line| by {
      forall k | 0 <= k < |line| ensures !IsBreak(s[k]) { assert s[k] == line[k]; }
    }
    assert s[..e] == line && s[e + 1..] == rest;
    if rest != "" {
      assert s[e + 1] == rest[0] && s[e + 2..] == rest[1..];
    }
  }

  // ---- stripping ----

  ghost predicate All(s: string, p: char -> bool) {
    forall k :: 0 <= k < |s| ==> p(s[k])
  }

  lemma {:induction false} StripLeftPast(a: string, m: string, p: char -> bool)
    requires All(a, p) && (m == "" || !p(m[0]))
    ensures StripLeft(a + m, p) == m
  {
    if a == "" {
      assert a + m == m;
    } else {
      assert (a + m)[1..] == a[1..] + m;
      StripLeftPast(a[1..], m, p);
    }
  }

  lemma {:induction false} StripRightPast(m: string, b: string, p: char -> bool)
    requires All(b, p) && (m == "" || !p(m[|m| - 1]))
    ensures StripRight(m + b, p) == m
  {
    if b == "" {
      assert m + b == m;
    } else {
      assert (m + b)[..|m + b| - 1] == m + b[..|b| - 1];
      StripRightPast(m, b[..|b| - 1], p);
    }
  }

  // Stripping removes exactly the space around a text that neither begins nor ends with any.
  lemma StripPadding(a: string, m: string, b: string)
    requires All(a, IsSpace) && All(b, IsSpace) && m != "" && !IsSpace(m[0]) && !IsSpace(m[|m| - 1])
    ensures Strip(a + m + b) == m
  {
    assert a + m + b == a + (m + b);
    StripLeftPast(a, m + b, IsSpace);
    StripRightPast(m, b, IsSpace);
  }

  lemma {:induction false} StripLeftParts(s: string, p: char -> bool)
    ensures var t := StripLeft(s, p);
            |t| <= |s| && s == s[..|s| - |t|] + t && All(s[..|s| - |t|], p) && (t == "" || !p(t[0]))
  {
    hide All;
    if s != "" && p(s[0]) {
      var rest := s[1..];
      StripLeftParts(rest, p);
      var t := StripLeft(rest, p);
      OneSooner(rest[..|rest| - |t|], t, s, p);
    } else {
      NoneGone(s, p);
    }
  }

  lemma NoneGone(s: string, p: char -> bool)
    ensures s == s[..0] + s && All(s[..0], p) && s == s + s[|s|..] && All(s[|s|..], p)
  {}

  lemma OneSooner(gone: string, t: string, s: string, p: char -> bool)
    requires s != "" && s[1..] == gone + t && All(gone, p) && p(s[0])
    ensures |t| <= |s| && s == s[..|s| - |t|] + t && All(s[..|s| - |t|], p)
  {
    assert s == ([s[0]] + gone) + t;
  }

  lemma {:induction false} StripRightParts(s: string, p: char -> bool)
    ensures var t := StripRight(s, p);
            |t| <= |s| && s == t + s[|t|..] && All(s[|t|..], p) && (t == "" || !p(t[|t| - 1]))
  {
    hide All;
    if s != "" && p(s[|s| - 1]) {
      var front := s[..|s| - 1];
      StripRightParts(front, p);
      var t := StripRight(front, p);
      OneMore(t, front[|t|..], s, p);
    } else {
      NoneGone(s, p);
    }
  }

  lemma OneMore(t: string, gone: string, s: string, p: char -> bool)
    requires s != "" && s[..|s| - 1] == t + gone && All(gone, p) && p(s[|s| - 1])
    ensures |t| <= |s| && s == t + s[|t|..] && All(s[|t|..], p)
  {
    assert s == t + (gone + [s[|s| - 1]]);
  }

  // ---- finding ----

  predicate At(text: string, m: string, i: int) {
    0 <= i && i + |m| <= |text| && text[i..i + |m|] == m
  }

  // `str.find`
  function Find(text: string, m: string, from: nat): (r: Option<nat>)
    ensures r.Some? ==> from <= r.value && At(text, m, r.value) && forall j :: from <= j < r.value ==> !At(text, m, j)
    ensures r.None? ==> forall j :: from <= j ==> !At(text, m, j)
    decreases |text| - from
  {
    if from + |m| > |text| then None
    else if At(text, m, from) then Some(from)
    else Find(text, m, from + 1)
  }

  // `m in text`
  predicate Occurs(text: string, m: string) {
    Find(text, m, 0).Some?
  }

  lemma OccursIs(text: string, m: string)
    ensures Occurs(text, m) <==> exists a, b :: text == a + m + b
  {
    if Occurs(text, m) {
      var i := Find(text, m, 0).value;
      assert text == text[..i] + m + text[i + |m|..];
    }
    if a, b :| text == a + m + b {
      assert text[|a|..|a| + |m|] == m;
      assert At(text, m, |a|);
    }
  }

  // The pieces of a text between the places a character stands: `str.split`.
  function SplitAt(text: string, c: char): (parts: seq<string>)
    ensures parts != []
  {
    if text == "" then [""]
    else if text[0] == c then [""] + SplitAt(text[1..], c)
    else
      var rest := SplitAt(text[1..], c);
      [[text[0]] + rest[0]] + rest[1..]
  }

  lemma {:induction false} SplitAtFirst(a: string, b: string, c: char)
    requires c !in a
    ensures SplitAt(a + [c] + b, c) == [a] + SplitAt(b, c)
    ensures SplitAt(a, c) == [a]
  {
    if a == "" {
      assert (a + [c] + b)[1..] == b;
    } else {
      assert (a + [c] + b)[1..] == a[1..] + [c] + b;
      SplitAtFirst(a[1..], b, c);
      assert [a[0]] + a[1..] == a;
    }
  }

  // ---- comments and numbers ----

  // The text before its first '#'.
  function Uncommented(line: string): string {
    if line == "" || line[0] == '#' then "" else [line[0]] + Uncommented(line[1..])
  }

  lemma {:induction false} NoComment(s: string)
    requires '#' !in s
    ensures Uncommented(s) == s
  {
    if s != "" {
      NoComment(s[1..]);
      assert s == [s[0]] + s[1..];
    }
  }

  predicate AllDigits(s: string) {
    forall k :: 0 <= k < |s| ==> IsDigit(s[k])
  }

  function NumberOf(s: string): nat
    requires AllDigits(s)
  {
    if s == "" then 0 else NumberOf(s[..|s| - 1]) * 10 + DigitValue(s[|s| - 1])
  }

  // `str(n)` for a natural number.
  function Digits(n: nat): (d: string)
    ensures d != "" && AllDigits(d) && NumberOf(d) == n
    decreases n
  {
    if n < 10 then
      assert NumberOf([DigitChar(n)][..0]) == 0;
      [DigitChar(n)]
    else
      var front := Digits(n / 10);
      var d := front + [DigitChar(n % 10)];
      assert d[..|d| - 1] == front;
      d
  }

  predicate StartsWith(s: string, prefix: string) {
    |prefix| <= |s| && s[..|prefix|] == prefix
  }

  lemma StartsWithIs(s: string, prefix: string)
    ensures StartsWith(s, prefix) <==> exists rest :: s == prefix + rest
  {
    if StartsWith(s, prefix) { assert s == prefix + s[|prefix|..]; }
  }

  // ---- lines with their ends ----

  // `str.splitlines(keepends=True)`
  function SplitKeep(s: string): seq<string> {
    if s == "" then []
    else
      var e := LineEnd(s, 0);
      if e == |s| then [s] else [s[..e + BreakLength(s, e)]] + SplitKeep(s[e + BreakLength(s, e)..])
  }

  lemma SplitKeepCons(line: string, rest: string)
    requires OneLine(line)
    ensures SplitKeep(line + "\n" + rest) == [line + "\n"] + SplitKeep(rest)
  {
    var s := line + "\n" + rest;
    var e := LineEnd(s, 0);
    assert s[|line|] == '\n' && IsBreak(s[|line|]);
    assert e == |line| by {
      forall k | 0 <= k < |line| ensures !IsBreak(s[k]) { assert s[k] == line[k]; }
    }
    assert s[..e + 1] == line + "\n" && s[e + 1..] == rest;
  }

  function Concat(parts: seq<string>): string {
    if parts == [] then "" else parts[0] + Concat(parts[1..])
  }

  lemma {:induction false} ConcatSplitKeep(s: string)
    ensures Concat(SplitKeep(s)) == s
    decreases |s|
  {
    hide IsBreak;
    if s != "" {
      var e := LineEnd(s, 0);
      if e < |s| {
        var n := e + BreakLength(s, e);
        KeptCons(s, e, n, s[n..]);
        hide SplitKeep, LineEnd, BreakLength;
        ConcatSplitKeep(s[n..]);
        ConcatCons(s[..n], SplitKeep(s[n..]));
        assert s == s[..n] + s[n..];
      } else {
        assert [s][1..] == [];
        assert s + "" == s;
      }
    }
  }

  lemma ConcatCons(first: string, rest: seq<string>)
    ensures Concat([first] + rest) == first + Concat(rest)
  {
    assert ([first] + rest)[1..] == rest;
  }

  // A text is its stripped self between two runs of space.
  lemma StripParts(s: string) returns (a: string, b: string)
    ensures s == a + Strip(s) + b && All(a, IsSpace) && All(b, IsSpace)
    ensures Strip(s) != "" ==> !IsSpace(Strip(s)[0]) && !IsSpace(Strip(s)[|Strip(s)| - 1])
  {
    var left, m := StripLeft(s, IsSpace), Strip(s);
    StripLeftParts(s, IsSpace);
    StripRightParts(left, IsSpace);
    a, b := s[..|s| - |left|], left[|m|..];
    assert m != "" ==> m[0] == left[0];
  }

  lemma StripOfStripped(m: string)
    requires m != "" ==> !IsSpace(m[0]) && !IsSpace(m[|m| - 1])
    ensures Strip(m) == m
  {
    if m != "" {
      StripPadding("", m, "");
      assert "" + m + "" == m;
    }
  }

  lemma AllSpaceStrips(s: string)
    requires All(s, IsSpace)
    ensures Strip(s) == ""
  {
    StripLeftPast(s, "", IsSpace);
    assert s + "" == s;
  }

  lemma StripBreak(line: string)
    ensures Strip(line + "\n") == Strip(line)
  {
    var a, b := StripParts(line);
    var m := Strip(line);
    if m == "" {
      AllSpaceStrips(a + b + "\n");
      assert line + "\n" == a + b + "\n";
    } else {
      StripPadding(a, m, b + "\n");
      assert line + "\n" == a + m + (b + "\n");
    }
  }

  lemma {:induction false} StripRightKeeps(s: string, p: char -> bool)
    requires s != "" && !p(s[0])
    ensures StripRight(s, p) != "" && StripRight(s, p)[0] == s[0]
  {
    if p(s[|s| - 1]) {
      StripRightKeeps(s[..|s| - 1], p);
    }
  }

  // ---- splitting a text at a newline ----

  ghost predicate Ended(text: string) {
    text == "" || text[|text| - 1] == '\n'
  }

  lemma SameFirstLine(a: string, b: string)
    requires a != "" && Ended(a)
    ensures var e := LineEnd(a, 0);
            e < |a| && LineEnd(a + b, 0) == e && BreakLength(a + b, e) == BreakLength(a, e)
  {
    var e := LineEnd(a, 0);
    assert IsBreak(a[|a| - 1]);
    FirstBreak(a, b, e);
  }

  lemma FirstBreak(a: string, b: string, e: nat)
    requires e < |a| && IsBreak(a[e]) && forall k :: 0 <= k < e ==> !IsBreak(a[k])
    ensures LineEnd(a + b, 0) == e
  {
    assert (a + b)[e] == a[e];
    assert forall k :: 0 <= k < e ==> (a + b)[k] == a[k];
  }

  lemma Splits(a: string, b: string, e: nat, n: nat)
    requires e <= n <= |a|
    ensures (a + b)[n..] == a[n..] + b && (a + b)[..e] == a[..e] && (a + b)[..n] == a[..n]
  {}

  lemma Associate<T>(a: seq<T>, b: seq<T>, c: seq<T>)
    ensures a + (b + c) == (a + b) + c
  {}

  lemma NoLines()
    ensures SplitLines("") == [] && SplitKeep("") == []
  {}

  lemma LinesCons(s: string, e: nat, n: nat, rest: string)
    requires s != "" && e == LineEnd(s, 0) < |s| && n == e + BreakLength(s, e) && rest == s[n..]
    ensures SplitLines(s) == [s[..e]] + SplitLines(rest)
  {
    hide LineEnd, BreakLength, IsBreak;
  }

  lemma {:induction false} LinesConcat(a: string, b: string)
    requires Ended(a)
    ensures SplitLines(a + b) == SplitLines(a) + SplitLines(b)
    decreases |a|
  {
    hide SplitLines, LineEnd, BreakLength, IsBreak;
    if a == "" {
      assert a + b == b;
      NoLines();
    } else {
      SameFirstLine(a, b);
      var e := LineEnd(a, 0);
      var n := e + BreakLength(a, e);
      Splits(a, b, e, n);
      LinesCons(a, e, n, a[n..]);
      LinesCons(a + b, e, n, a[n..] + b);
      LinesConcat(a[n..], b);
      Associate([a[..e]], SplitLines(a[n..]), SplitLines(b));
    }
  }

  lemma KeptCons(s: string, e: nat, n: nat, rest: string)
    requires s != "" && e == LineEnd(s, 0) < |s| && n == e + BreakLength(s, e) && rest == s[n..]
    ensures SplitKeep(s) == [s[..n]] + SplitKeep(rest)
  {
    hide LineEnd, BreakLength, IsBreak;
  }

  lemma {:induction false} KeptConcat(a: string, b: string)
    requires Ended(a)
    ensures SplitKeep(a + b) == SplitKeep(a) + SplitKeep(b)
    decreases |a|
  {
    hide SplitKeep, LineEnd, BreakLength, IsBreak;
    if a == "" {
      assert a + b == b;
      NoLines();
    } else {
      SameFirstLine(a, b);
      var e := LineEnd(a, 0);
      var n := e + BreakLength(a, e);
      Splits(a, b, e, n);
      KeptCons(a, e, n, a[n..]);
      KeptCons(a + b, e, n, a[n..] + b);
      KeptConcat(a[n..], b);
      Associate([a[..n]], SplitKeep(a[n..]), SplitKeep(b));
    }
  }

  lemma BreakCons(line: string, c: char, rest: string)
    requires OneLine(line) && IsBreak(c) && c != '\r'
    ensures SplitLines(line + [c] + rest) == [line] + SplitLines(rest)
  {
    var s := line + [c] + rest;
    assert s[|line|] == c;
    forall k | 0 <= k < |line| ensures !IsBreak(s[k]) { assert s[k] == line[k]; }
    assert LineEnd(s, 0) == |line|;
    assert s[..|line|] == line && s[|line| + 1..] == rest;
  }
}
