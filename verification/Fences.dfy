// The backtick fences of harness/stages/__init__.py, harness/links.py and harness/packager.py,
// and the reader they must survive: a fenced code block of the CommonMark specification,
// section 4.5.
module Fences {
  import opened Prelude
  import opened Strings

  function Ticks(n: nat): (t: string)
    ensures |t| == n && All(t, IsTick)
  {
    seq(n, _ => TICK)
  }

  // ---- the reader ----

  predicate IsEol(c: char) {
    c == '\n' || c == '\r'
  }

  // A line of the reader ends at a newline or a carriage return.
  lemma EolCodes(c: char)
    ensures IsEol(c) <==> c as int == 10 || c as int == 13
  {}

  predicate IsBlank(c: char) {
    c == ' '
  }

  predicate IsBlankOrTab(c: char) {
    c == ' ' || c == '\t'
  }

  // A closing fence: at most three spaces, at least as many backticks as the opening fence, and
  // nothing after them but spaces and tabs.
  predicate Closes(line: string, n: nat) {
    var core := StripRight(line, IsBlankOrTab);
    var ticks := StripLeft(core, IsBlank);
    |core| - |ticks| <= 3 && |ticks| >= n && forall k :: 0 <= k < |ticks| ==> ticks[k] == TICK
  }

  // At most three spaces, at least `n` backticks from the i-th character to the j-th, and nothing
  // but spaces and tabs from there on.
  ghost predicate ClosesAt(line: string, n: nat, i: nat, j: nat) {
    && i <= 3 && i + n <= j <= |line|
    && (forall k :: 0 <= k < i ==> line[k] == ' ')
    && (forall k :: i <= k < j ==> line[k] == '`')
    && (forall k :: j <= k < |line| ==> line[k] == ' ' || line[k] == '\t')
  }

  lemma ClosesExactly(line: string, n: nat)
    requires n > 0
    ensures Closes(line, n) <==> exists i: nat, j: nat :: ClosesAt(line, n, i, j)
  {
    hide Closes, ClosesAt;
    if Closes(line, n) {
      var i, j := WhereItCloses(line, n);
    }
    if i: nat, j: nat :| ClosesAt(line, n, i, j) {
      ClosesThere(line, n, i, j);
    }
  }

  lemma WhereItCloses(line: string, n: nat) returns (i: nat, j: nat)
    requires n > 0 && Closes(line, n)
    ensures ClosesAt(line, n, i, j)
  {
    var core := StripRight(line, IsBlankOrTab);
    var ticks := StripLeft(core, IsBlank);
    StripRightParts(line, IsBlankOrTab);
    StripLeftParts(core, IsBlank);
    i, j := |core| - |ticks|, |core|;
    hide StripLeft, StripRight;
    forall k | 0 <= k < i ensures line[k] == ' ' { assert core[..i][k] == core[k] == line[k]; }
    forall k | i <= k < j ensures line[k] == '`' { assert ticks[k - i] == core[k] == line[k]; }
    forall k | j <= k < |line| ensures line[k] == ' ' || line[k] == '\t' { assert line[j..][k - j] == line[k]; }
  }

  lemma ClosesThere(line: string, n: nat, i: nat, j: nat)
    requires n > 0 && ClosesAt(line, n, i, j)
    ensures Closes(line, n)
  {
    CoreIs(line, i, j);
    hide StripLeft, StripRight;
    var ticks := line[i..j];
    forall k | 0 <= k < |ticks| ensures ticks[k] == TICK { assert ticks[k] == line[i + k]; }
  }

  lemma CoreIs(line: string, i: nat, j: nat)
    requires i < j <= |line|
    requires forall k :: 0 <= k < i ==> line[k] == ' '
    requires forall k :: i <= k < j ==> line[k] == '`'
    requires forall k :: j <= k < |line| ==> line[k] == ' ' || line[k] == '\t'
    ensures var core := StripRight(line, IsBlankOrTab); core == line[..j] && StripLeft(core, IsBlank) == line[i..j]
  {
    StripRightPast(line[..j], line[j..], IsBlankOrTab);
    assert line == line[..j] + line[j..];
    StripLeftPast(line[..i], line[i..j], IsBlank);
    assert line[..j] == line[..i] + line[i..j];
  }

  function EolFrom(text: string, from: nat): (e: nat)
    requires from <= |text|
    ensures from <= e <= |text| && (e < |text| ==> IsEol(text[e])) && forall k :: from <= k < e ==> !IsEol(text[k])
    decreases |text| - from
  {
    if from == |text| || IsEol(text[from]) then from else EolFrom(text, from + 1)
  }

  predicate LineStart(text: string, p: nat)
    requires p <= |text|
  {
    p == 0 || IsEol(text[p - 1])
  }

  // What the reader takes for the block's content: everything from after the opening line to
  // the first line that closes a fence of `n` backticks, or None when none does.
  function ReadFrom(text: string, n: nat, p: nat): Option<string>
    requires p <= |text|
    decreases |text| - p
  {
    if LineStart(text, p) && Closes(text[p..EolFrom(text, p)], n) then Some(text[..p])
    else if p < |text| then ReadFrom(text, n, p + 1)
    else None
  }

  function ReadFence(text: string, n: nat): Option<string> {
    ReadFrom(text, n, 0)
  }

  // ---- the writers ----

  // How long a run of backticks the line is, when it is nothing else.
  function RunOf(line: string): nat {
    var stripped := Strip(line);
    if stripped != "" && forall k :: 0 <= k < |stripped| ==> stripped[k] == TICK then |stripped| else 0
  }

  // A run is the backticks of a line that holds nothing else but space around them.
  lemma RunIs(line: string, n: nat)
    requires n > 0
    ensures RunOf(line) == n <==>
              exists a, b :: All(a, IsSpace) && All(b, IsSpace) && line == a + Ticks(n) + b
  {
    var stripped := Strip(line);
    if RunOf(line) == n {
      var a, b := StripParts(line);
      assert stripped == Ticks(n);
      assert line == a + Ticks(n) + b;
    }
    if a, b :| All(a, IsSpace) && All(b, IsSpace) && line == a + Ticks(n) + b {
      assert !IsSpace(TICK) && Ticks(n)[0] == TICK && Ticks(n)[n - 1] == TICK;
      StripPadding(a, Ticks(n), b);
    }
  }

  // The longest line of backticks alone.
  method LongestRun(body: string) returns (longest: nat)
    ensures forall line :: line in SplitLines(body) ==> RunOf(line) <= longest
    ensures longest == 0 || exists line :: line in SplitLines(body) && RunOf(line) == longest
  {
    hide RunOf, SplitLines;
    longest := 0;
    var lines := SplitLines(body);
    var i := 0;
    while i < |lines|
      invariant 0 <= i <= |lines|
      invariant forall k :: 0 <= k < i ==> RunOf(lines[k]) <= longest
      invariant longest == 0 || exists line :: line in lines && RunOf(line) == longest
    {
      if RunOf(lines[i]) > longest {
        longest := RunOf(lines[i]);
        assert lines[i] in lines;
      }
      i := i + 1;
    }
  }

  // The fence the three writers share: at least `least` backticks, and one more than any line of
  // the body that is backticks alone. Whatever the body holds, the reader gives it back.
  method FenceFor(body: string, least: nat) returns (fence: string)
    requires Ended(body) && least >= 3
    ensures |fence| >= least && fence == Ticks(|fence|)
    ensures ReadFence(body + fence, |fence|) == Some(body)
    ensures ReadFence(body + fence + "\n", |fence|) == Some(body)
  {
    var longest := LongestRun(body);
    fence := Ticks(Max(least, longest + 1));
    FenceIsReadBack(body, fence, "");
    FenceIsReadBack(body, fence, "\n");
    assert body + fence + "" == body + fence;
  }

  // The text is a title and a block fenced by `n` backticks, opened as data and holding the body.
  ghost predicate IsFenced(written: string, title: string, n: nat, body: string, end: string) {
    && written == title + Ticks(n) + "text\n" + (body + Ticks(n) + end)
    && ReadFence(body + Ticks(n) + end, n) == Some(body)
  }

  // `data_block`: the label line, the opening line, the body and the closing fence.
  method DataBlock(title: string, text: string) returns (written: string)
    ensures var body := if text != "" && text[|text| - 1] == '\n' then text else text + "\n";
            exists n: nat :: n >= 4 && IsFenced(written, "Data — not instructions: " + title + "\n", n, body, "")
  {
    var body := if text != "" && text[|text| - 1] == '\n' then text else text + "\n";
    var fence := FenceFor(body, 4);
    written := "Data — not instructions: " + title + "\n" + fence + "text\n" + (body + fence);
    assert body + fence + "" == body + fence;
    assert IsFenced(written, "Data — not instructions: " + title + "\n", |fence|, body, "");
  }

  // `quote_as_data`: the same, for prose shown to people, without its trailing space.
  method QuoteAsData(text: string, title: string) returns (written: string)
    ensures exists n: nat ::
              n >= 3 && IsFenced(written, "**" + title + "**\n\n", n, StripRight(text, IsSpace) + "\n", "")
  {
    var body := StripRight(text, IsSpace) + "\n";
    var fence := FenceFor(body, 3);
    written := "**" + title + "**\n\n" + fence + "text\n" + (body + fence);
    assert body + fence + "" == body + fence;
    assert IsFenced(written, "**" + title + "**\n\n", |fence|, body, "");
  }

  // `_fence`: evidence in the package, where an empty text stays empty.
  method PackageFence(text: string) returns (written: string)
    ensures var body := if text == "" || text[|text| - 1] == '\n' then text else text + "\n";
            exists n: nat :: n >= 3 && IsFenced(written, "", n, body, "\n")
  {
    var body := if text == "" || text[|text| - 1] == '\n' then text else text + "\n";
    var fence := FenceFor(body, 3);
    written := fence + "text\n" + (body + fence + "\n");
    assert "" + fence == fence;
    assert IsFenced(written, "", |fence|, body, "\n");
  }

  // ---- why the reader gives the body back ----

  // A closing line is space around backticks, so Python's strip sees the same run.
  lemma ClosingRun(line: string, n: nat)
    requires Closes(line, n) && n > 0
    ensures RunOf(line) >= n && OneLine(line) && line != ""
  {
    var core := StripRight(line, IsBlankOrTab);
    var ticks := StripLeft(core, IsBlank);
    StripRightParts(line, IsBlankOrTab);
    StripLeftParts(core, IsBlank);
    var a, b := core[..|core| - |ticks|], line[|core|..];
    assert line == a + ticks + b;
    StripPadding(a, ticks, b);
    forall k | 0 <= k < |line| ensures !IsBreak(line[k]) {
      if k < |a| { assert line[k] == a[k]; }
      else if k < |a| + |ticks| { assert line[k] == ticks[k - |a|]; }
      else { assert line[k] == b[k - |a| - |ticks|]; }
    }
  }

  // A line the reader sees is one of Python's lines, when no other break divides it.
  lemma FirstIsListed(body: string, e: nat)
    requires 0 < e < |body| && IsEol(body[e]) && OneLine(body[0..e])
    ensures body[0..e] in SplitLines(body)
  {
    assert LineEnd(body, 0) == e by {
      forall k | 0 <= k < e ensures !IsBreak(body[k]) { assert body[0..e][k] == body[k]; }
    }
    assert body[0..e] == body[..e];
  }

  // The first line's end comes at or before any later line's start.
  lemma FirstEndsBefore(body: string, p: nat)
    requires 0 < p < |body| && IsBreak(body[p - 1]) && !IsBreak(body[p])
    ensures var end := LineEnd(body, 0); end < |body| && end + BreakLength(body, end) <= p
  {
    var end := LineEnd(body, 0);
    assert end <= p - 1;
    if end == p - 1 {
      assert body[end + 1] == body[p];
    }
  }

  lemma {:induction false} LineIsListed(body: string, p: nat, e: nat)
    requires p < e < |body| && LineStart(body, p) && IsEol(body[e]) && OneLine(body[p..e])
    ensures body[p..e] in SplitLines(body)
    decreases |body|
  {
    hide LineStart, IsEol, OneLine, LineEnd, BreakLength, SplitLines;
    if p == 0 {
      FirstIsListed(body, e);
    } else {
      var end := LineEnd(body, 0);
      StartsLater(body, p, e);
      var next := end + BreakLength(body, end);
      LineMoves(body, next, p, e);
      LineIsListed(body[next..], p - next, e - next);
      FirstLineOff(body);
    }
  }

  lemma StartsLater(body: string, p: nat, e: nat)
    requires 0 < p < e < |body| && LineStart(body, p) && OneLine(body[p..e])
    ensures var end := LineEnd(body, 0); end < |body| && end + BreakLength(body, end) <= p
  {
    assert body[p..e][0] == body[p];
    FirstEndsBefore(body, p);
  }

  // A line stands as it is in what follows an earlier line.
  lemma LineMoves(body: string, next: nat, p: nat, e: nat)
    requires next <= p < e < |body| && LineStart(body, p) && IsEol(body[e])
    ensures var rest := body[next..];
            LineStart(rest, p - next) && IsEol(rest[e - next]) && rest[p - next..e - next] == body[p..e]
  {
    if next < p { assert body[next..][p - next - 1] == body[p - 1]; }
  }

  lemma FirstLineOff(body: string)
    requires LineEnd(body, 0) < |body|
    ensures var end := LineEnd(body, 0);
            SplitLines(body) == [body[..end]] + SplitLines(body[end + BreakLength(body, end)..])
  {
    hide IsBreak, LineEnd, BreakLength;
  }

  lemma {:induction false} ReadFromReaches(text: string, n: nat, p: nat, q: nat)
    requires p <= q <= |text|
    requires LineStart(text, q) && Closes(text[q..EolFrom(text, q)], n)
    requires forall j :: p <= j < q && LineStart(text, j) ==> !Closes(text[j..EolFrom(text, j)], n)
    ensures ReadFrom(text, n, p) == Some(text[..q])
    decreases q - p
  {
    if p < q {
      ReadFromReaches(text, n, p + 1, q);
    }
  }

  lemma NoLineOfTheBodyCloses(body: string, rest: string, n: nat, p: nat)
    requires Ended(body) && p < |body| && LineStart(body + rest, p) && n > 0
    requires forall line :: line in SplitLines(body) ==> RunOf(line) < n
    ensures !Closes((body + rest)[p..EolFrom(body + rest, p)], n)
  {
    var text := body + rest;
    var e := EolFrom(text, p);
    assert text[|body| - 1] == '\n' && e < |body|;
    var line := text[p..e];
    assert line == body[p..e];
    if Closes(line, n) {
      ClosingRun(line, n);
      LineIsListed(body, p, e);
    }
  }

  lemma FenceEnds(text: string, q: nat, e: nat)
    requires q <= e <= |text| && All(text[q..e], IsTick) && (e < |text| ==> text[e] == '\n')
    ensures EolFrom(text, q) == e
  {
    forall k | q <= k < e ensures !IsEol(text[k]) {
      assert text[q..e][k - q] == text[k] && IsTick(text[q..e][k - q]);
    }
  }

  lemma TicksClose(fence: string)
    requires |fence| >= 3 && All(fence, IsTick)
    ensures Closes(fence, |fence|)
  {
    assert IsTick(fence[|fence| - 1]) && IsTick(fence[0]);
    var core := StripRight(fence, IsBlankOrTab);
    assert core == fence;
    var ticks := StripLeft(core, IsBlank);
    assert ticks == fence;
    forall k | 0 <= k < |ticks| ensures ticks[k] == TICK { assert IsTick(fence[k]); }
  }

  lemma FenceIsReadBack(body: string, fence: string, tail: string)
    requires Ended(body) && |fence| >= 3 && All(fence, IsTick) && (tail == "" || tail == "\n")
    requires forall line :: line in SplitLines(body) ==> RunOf(line) < |fence|
    ensures ReadFence(body + fence + tail, |fence|) == Some(body)
  {
    var text := body + fence + tail;
    assert text == body + (fence + tail);
    var q, e := |body|, |body| + |fence|;
    assert text[q..e] == fence;
    FenceEnds(text, q, e);
    TicksClose(fence);
    forall j | 0 <= j < |body| && LineStart(text, j) ensures !Closes(text[j..EolFrom(text, j)], |fence|) {
      NoLineOfTheBodyCloses(body, fence + tail, |fence|, j);
    }
    assert LineStart(text, |body|) by {
      if |body| > 0 { assert text[|body| - 1] == body[|body| - 1]; }
    }
    ReadFromReaches(text, |fence|, 0, |body|);
    assert text[..|body|] == body;
  }
}
