// Paths as `git log` prints them for harness/clone.py: quoted when they hold a control character,
// a double quote or a backslash, and otherwise as they are.
module GitPaths {
  import opened Prelude
  import opened Strings
  import opened ProtectedPaths
  import opened CommitWalk

  predicate IsQuoted(c: char) {
    c < ' ' || c == '"' || c == '\\' || c == '\U{7F}'
  }

  function OctalDigit(n: nat): (d: char)
    requires n < 8
    ensures '0' <= d <= '7'
  {
    '0' + (n as char)
  }

  function QuoteChar(c: char): string {
    if c == '\U{07}' then "\\a"
    else if c == '\U{08}' then "\\b"
    else if c == '\t' then "\\t"
    else if c == '\n' then "\\n"
    else if c == '\U{0B}' then "\\v"
    else if c == '\U{0C}' then "\\f"
    else if c == '\r' then "\\r"
    else if c == '"' then "\\\""
    else if c == '\\' then "\\\\"
    else if IsQuoted(c) then ['\\', OctalDigit(c as nat / 64), OctalDigit(c as nat / 8 % 8), OctalDigit(c as nat % 8)]
    else [c]
  }

  function QuoteAll(s: string): string {
    if s == "" then "" else QuoteChar(s[0]) + QuoteAll(s[1..])
  }

  predicate IsPlain(path: string) {
    forall k :: 0 <= k < |path| ==> !IsQuoted(path[k])
  }

  // The line git prints for a path.
  function Quoted(path: string): string {
    if IsPlain(path) then path else "\"" + QuoteAll(path) + "\""
  }

  // ---- what is printed is the path ----

  // Exactly the controls, the double quote, the backslash and the delete character are quoted.
  lemma PlainExactly(path: string)
    ensures IsPlain(path) <==>
              forall k :: 0 <= k < |path| ==>
                32 <= path[k] as int && path[k] as int != 34 && path[k] as int != 92 && path[k] as int != 127
  {}

  // The characters git has a letter for, and the octal form of the rest.
  lemma QuotesOf(c: char)
    ensures QuoteChar('\U{07}') == ['\\', 'a'] && QuoteChar('\U{08}') == ['\\', 'b']
    ensures QuoteChar('\t') == ['\\', 't'] && QuoteChar('\n') == ['\\', 'n'] && QuoteChar('\r') == ['\\', 'r']
    ensures QuoteChar('\U{0B}') == ['\\', 'v'] && QuoteChar('\U{0C}') == ['\\', 'f']
    ensures QuoteChar('"') == ['\\', '"'] && QuoteChar('\\') == ['\\', '\\']
    ensures |QuoteChar(c)| == 1 <==> !IsQuoted(c)
  {}

  // The character a quoted one stands for, and how many characters it took.
  function ReadQuoted(s: string): Option<(char, nat)> {
    if s == "" then None
    else if s[0] != '\\' then Some((s[0], 1))
    else if |s| < 2 then None
    else match s[1]
      case 'a' => Some(('\U{07}', 2))
      case 'b' => Some(('\U{08}', 2))
      case 't' => Some(('\t', 2))
      case 'n' => Some(('\n', 2))
      case 'v' => Some(('\U{0B}', 2))
      case 'f' => Some(('\U{0C}', 2))
      case 'r' => Some(('\r', 2))
      case '"' => Some(('"', 2))
      case '\\' => Some(('\\', 2))
      case _ =>
        if |s| > 3 && IsOctal(s[1]) && IsOctal(s[2]) && IsOctal(s[3]) && s[1] < '4'
        then Some(((64 * OctalValue(s[1]) + 8 * OctalValue(s[2]) + OctalValue(s[3])) as char, 4))
        else None
  }

  predicate IsOctal(c: char) {
    '0' <= c <= '7'
  }

  function OctalValue(c: char): (n: nat)
    requires IsOctal(c)
    ensures n < 8
  {
    c as nat - '0' as nat
  }

  function Unquoted(s: string): string {
    match ReadQuoted(s)
    case Some((c, n)) => if n <= |s| && n > 0 then [c] + Unquoted(s[n..]) else ""
    case None => ""
  }

  lemma CharReadsBack(c: char, rest: string)
    ensures ReadQuoted(QuoteChar(c) + rest) == Some((c, |QuoteChar(c)|))
  {
    var q := QuoteChar(c);
    var s := q + rest;
    assert s[0] == q[0];
    if |q| == 2 {
      assert s[1] == q[1];
    } else if |q| == 4 {
      OctalReads(c, q);
      assert s[1] == q[1] && s[2] == q[2] && s[3] == q[3];
    }
  }

  lemma OctalReads(c: char, q: string)
    requires q == QuoteChar(c) && |q| == 4
    ensures q[0] == '\\' && IsOctal(q[1]) && IsOctal(q[2]) && IsOctal(q[3]) && q[1] < '4'
    ensures 64 * OctalValue(q[1]) + 8 * OctalValue(q[2]) + OctalValue(q[3]) == c as nat
  {
    var n := c as nat;
    assert n < 128 && n == 64 * (n / 64) + 8 * (n / 8 % 8) + n % 8;
    assert q == ['\\', OctalDigit(n / 64), OctalDigit(n / 8 % 8), OctalDigit(n % 8)];
  }

  // Reading the quoted characters back gives the path: no two paths are printed alike.
  lemma {:induction false} QuotingReadsBack(path: string)
    ensures Unquoted(QuoteAll(path)) == path
  {
    hide QuoteChar, ReadQuoted;
    if path == "" {
      NothingQuoted();
    } else {
      var rest := QuoteAll(path[1..]);
      CharReadsBack(path[0], rest);
      QuotingReadsBack(path[1..]);
      var q := QuoteChar(path[0]);
      SomethingQuoted(path[0]);
      assert (q + rest)[|q|..] == rest;
      assert path == [path[0]] + path[1..];
    }
  }

  lemma NothingQuoted()
    ensures Unquoted("") == ""
  {}

  lemma SomethingQuoted(c: char)
    ensures QuoteChar(c) != ""
  {}

  lemma {:induction false} QuoteConcat(a: string, b: string)
    ensures QuoteAll(a + b) == QuoteAll(a) + QuoteAll(b)
  {
    hide QuoteChar;
    if a == "" {
      assert a + b == b;
    } else {
      assert (a + b)[1..] == a[1..] + b;
      QuoteConcat(a[1..], b);
    }
  }

  lemma {:induction false} PlainIsItself(s: string)
    requires IsPlain(s)
    ensures QuoteAll(s) == s
  {
    if s != "" {
      PlainIsItself(s[1..]);
      assert s == [s[0]] + s[1..];
    }
  }

  lemma {:induction false} NothingControls(s: string)
    ensures forall k :: 0 <= k < |QuoteAll(s)| ==> QuoteAll(s)[k] >= ' '
  {
    if s != "" {
      NothingControls(s[1..]);
      CharIsVisible(s[0]);
    }
  }

  lemma CharIsVisible(c: char)
    ensures forall k :: 0 <= k < |QuoteChar(c)| ==> QuoteChar(c)[k] >= ' '
  {}

  // So no printed path holds the record separator.
  lemma NoRecordInside(path: string)
    ensures RECORD !in Quoted(path)
  {
    NothingControls(path);
    if IsPlain(path) {
      assert forall k :: 0 <= k < |path| ==> path[k] != RECORD;
    }
  }

  // The path lies in a protected directory of the repository.
  ghost predicate InProtected(path: string) {
    StartsWith(path, PROTECTED[1..]) || exists r :: At(path, PROTECTED, r)
  }

  lemma MarkerIsPlain()
    ensures IsPlain(PROTECTED) && IsPlain(PROTECTED[1..])
  {}

  lemma SlashedKeepsMarker(text: string, r: int)
    requires At(text, PROTECTED, r)
    ensures At(Slashed(text), PROTECTED, r)
  {
    AtChars(text, r);
    assert forall k :: 0 <= k < 9 ==> PROTECTED[k] != '\\';
    var was, now := text[r..r + 9], Slashed(text)[r..r + 9];
    forall k | 0 <= k < 9 ensures now[k] == was[k] {
      assert text[r + k] == PROTECTED[k];
    }
    assert now == was;
  }

  lemma SlashedKeepsStart(text: string)
    requires StartsWith(text, PROTECTED[1..])
    ensures StartsWith(Slashed(text), PROTECTED[1..])
  {
    StartChars(text);
    assert forall k :: 0 <= k < 8 ==> PROTECTED[1..][k] != '\\';
    assert Slashed(text)[..8] == text[..8] by {
      forall k | 0 <= k < 8 ensures Slashed(text)[..8][k] == text[..8][k] {
        assert text[k] == PROTECTED[1..][k];
      }
    }
  }

  // A text that begins with the marker's name leads with it, with one quote before it or none.
  lemma StartLeads(text: string)
    requires StartsWith(text, PROTECTED[1..])
    ensures Leads(text) && Leads("\"" + text)
  {
    StartChars(text);
    assert text[0] == '.' && text[1] == 'g';
    assert ("\"" + text)[1..] == text;
    assert StripLeft(text, IsQuote) == text && DropDots(text) == text && StripLeft(text, IsSlash) == text;
    assert LateForm(text) == text && LateForm("\"" + text) == text;
  }

  lemma QuotedMiddle(path: string, r: int)
    requires At(path, PROTECTED, r)
    ensures exists s :: At("\"" + QuoteAll(path) + "\"", PROTECTED, s)
  {
    hide QuoteAll, IsPlain;
    var a, b := path[..r], path[r + 9..];
    assert path == a + PROTECTED + b;
    MarkerIsPlain();
    PlainIsItself(PROTECTED);
    QuoteConcat(a + PROTECTED, b);
    QuoteConcat(a, PROTECTED);
    var text := "\"" + QuoteAll(path) + "\"";
    AtBetween("\"" + QuoteAll(a), QuoteAll(b) + "\"");
    assert text == "\"" + QuoteAll(a) + PROTECTED + (QuoteAll(b) + "\"");
  }

  lemma AtBetween(a: string, b: string)
    ensures At(a + PROTECTED + b, PROTECTED, |a|)
  {
    assert (a + PROTECTED + b)[|a|..|a| + 9] == PROTECTED;
  }

  lemma QuotedStart(path: string)
    requires StartsWith(path, PROTECTED[1..])
    ensures StartsWith(QuoteAll(path) + "\"", PROTECTED[1..])
  {
    var m, b := PROTECTED[1..], path[8..];
    assert path == m + b;
    MarkerIsPlain();
    PlainIsItself(m);
    QuoteConcat(m, b);
    assert (QuoteAll(path) + "\"")[..8] == m;
  }

  // The quotes git puts around a path carry none past the match.
  lemma QuotedIsReported(path: string)
    requires InProtected(path)
    ensures IsProtected(Quoted(path))
  {
    hide QuoteAll, Slashed, Leads, At, StartsWith, IsProtected, IsPlain;
    var line := Quoted(path);
    ProtectedIff(line);
    if StartsWith(path, PROTECTED[1..]) {
      if IsPlain(path) {
        SlashedKeepsStart(path);
        StartLeads(Slashed(path));
      } else {
        var inner := QuoteAll(path) + "\"";
        QuotedStart(path);
        SlashedKeepsStart(inner);
        StartLeads(Slashed(inner));
        assert line == "\"" + inner;
        SlashedQuote(inner);
      }
    } else {
      var r :| At(path, PROTECTED, r);
      if !IsPlain(path) {
        QuotedMiddle(path, r);
        r :| At(line, PROTECTED, r);
      }
      SlashedKeepsMarker(line, r);
    }
  }

  lemma SlashedQuote(text: string)
    ensures Slashed("\"" + text) == "\"" + Slashed(text)
  {}

  // ---- the walk of what git prints ----

  function AsPrinted(c: Commit): Commit {
    c.(paths := Mapped(Quoted, c.paths))
  }

  lemma PrintedIsPrintable(c: Commit)
    requires Printable(c.sha)
    ensures PrintableCommit(AsPrinted(c))
  {
    hide Printable;
    forall p | p in AsPrinted(c).paths ensures RECORD !in p {
      var k :| 0 <= k < |c.paths| && Mapped(Quoted, c.paths)[k] == p;
      NoRecordInside(c.paths[k]);
    }
  }

  lemma PrintedTouches(c: Commit, path: string)
    requires path in c.paths && InProtected(path)
    ensures Touches(AsPrinted(c))
  {
    hide IsProtected, Quoted, InProtected;
    QuotedIsReported(path);
    var k :| 0 <= k < |c.paths| && c.paths[k] == path;
    assert Mapped(Quoted, c.paths)[k] == Quoted(path);
    assert Quoted(path) in AsPrinted(c).paths;
  }

  // Whatever its paths and its authors' emails are, a walk of git's log that was not cut and
  // reports nothing means that no commit of the harness's run touches a protected directory.
  lemma NothingProtectedPasses(cs: seq<Commit>)
    requires forall c :: c in cs ==> Printable(c.sha)
    ensures var walk := WalkOf(ReadLog(PrintLog(Mapped(AsPrinted, cs))));
            !walk.capped && ProtectedOf(walk.commits) == [] ==>
              forall k, path :: 0 <= k < HarnessPrefix(cs) && path in cs[k].paths ==> !InProtected(path)
  {
    hide InProtected, Touches, Shows, ProtectedOf, ReadLog, PrintLog, WalkOf, Printable, PrintableCommit,
        EndIsSeen, AsRead;
    var printed := Mapped(AsPrinted, cs);
    forall c | c in printed ensures PrintableCommit(c) {
      var k :| 0 <= k < |cs| && printed[k] == c;
      PrintedIsPrintable(cs[k]);
    }
    EmptyAnswerVouches(printed);
    SameAuthors(cs);
    forall k, path | 0 <= k < HarnessPrefix(cs) && path in cs[k].paths && InProtected(path)
      ensures Touches(printed[k])
    {
      PrintedTouches(cs[k], path);
    }
  }

  lemma SameAuthors(cs: seq<Commit>)
    ensures HarnessPrefix(Mapped(AsPrinted, cs)) == HarnessPrefix(cs)
  {
    assert Mapped(ByHarness, Mapped(AsPrinted, cs)) == Mapped(ByHarness, cs);
  }
}
