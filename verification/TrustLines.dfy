// One line of the trust file of harness/trust.py.
module TrustLines {
  import opened Prelude
  import opened Strings

  const DEFAULT_LEVEL := 1
  const MAX_LEVEL := 3

  // ---- one line ----

  predicate IsWordChar(c: char) {
    !IsSpace(c)
  }

  // `str.split()`
  function WordEnd(s: string, from: nat): (e: nat)
    requires from <= |s|
    ensures from <= e <= |s|
    decreases |s| - from
  {
    if from == |s| || IsSpace(s[from]) then from else WordEnd(s, from + 1)
  }

  function Words(s: string): (w: seq<string>)
    ensures forall k :: 0 <= k < |w| ==> w[k] != ""
  {
    if s == "" then []
    else if IsSpace(s[0]) then Words(s[1..])
    else var e := WordEnd(s, 1); [s[..e]] + Words(s[e..])
  }

  // `vouch:<id>`: the id, when the token is one.
  function VouchedId(token: string): Option<nat> {
    if 6 < |token| <= 26 && Lower(token[..6]) == "vouch:" && token[6] != '0' && AllDigits(token[6..])
    then Some(NumberOf(token[6..]))
    else None
  }

  function NormaliseHandle(handle: string): string {
    Lower(StripLeft(Strip(handle), IsAt))
  }

  predicate IsLogin(handle: string) {
    1 <= |handle| <= 39 && forall k :: 0 <= k < |handle| ==>
      'a' <= handle[k] <= 'z' || 'A' <= handle[k] <= 'Z' || IsDigit(handle[k]) || handle[k] == '-'
  }

  // What one line says: nothing; a placeholder; something refused; or a grant to one handle.
  datatype Reading =
    | Nothing
    | Placeholder(entry: string)
    | Malformed(entry: string)
    | Accepted(handle: string, level: nat, pin: Option<nat>, explicit: bool, entry: string)

  function Accepting(entry: string, handle: string, rest: seq<string>, level: nat, explicit: bool): Reading {
    var pin := if |rest| == 1 then VouchedId(rest[0]) else None;
    if rest != [] && pin.None? then Malformed(entry)
    else
      var name := NormaliseHandle(handle);
      if name == "" then Nothing
      else if !IsLogin(name) then Malformed(entry)
      else Accepted(name, level, pin, explicit, entry)
  }

  function ReadLine(line: string): Reading {
    var entry := Strip(Uncommented(line));
    var parts := Words(entry);
    if entry == "" || parts == [] then Nothing
    else if '<' in entry || '>' in entry then Placeholder(entry)
    else if AllDigits(parts[0]) then
      if |parts| < 2 || !(1 <= NumberOf(parts[0]) <= MAX_LEVEL) then Malformed(entry)
      else Accepting(entry, parts[1], parts[2..], NumberOf(parts[0]), true)
    else Accepting(entry, parts[0], parts[1..], DEFAULT_LEVEL, false)
  }

  function ReadLines(lines: seq<string>): seq<Reading> {
    Mapped(ReadLine, lines)
  }

  // ---- which lines grant what ----

  // A login has one to 39 characters, each an ASCII letter, a digit or a hyphen.
  lemma LoginIs(handle: string)
    ensures IsLogin(handle) <==>
              0 < |handle| < 40 && forall k :: 0 <= k < |handle| ==> IsLoginCode(handle[k] as int)
  {}

  // Of the letters, the digits and the hyphen, by their codes.
  predicate IsLoginCode(code: int) {
    97 <= code <= 122 || 65 <= code <= 90 || 48 <= code <= 57 || code == 45
  }

  // A handle is one whatever its case, the space around it and the signs before it.
  lemma HandleIs(before: string, ats: string, name: string, after: string)
    requires All(before, IsSpace) && All(ats, IsAt) && All(after, IsSpace)
    requires name != "" && name[0] != '@' && !IsSpace(name[0]) && !IsSpace(name[|name| - 1])
    ensures NormaliseHandle(before + ats + name + after) == Lower(name)
  {
    var m := ats + name;
    assert m[0] == (if ats == "" then name[0] else ats[0]) && !IsSpace('@');
    assert m[|m| - 1] == name[|name| - 1];
    StripPadding(before, m, after);
    assert before + ats + name + after == before + m + after;
    StripLeftPast(ats, name, IsAt);
  }

  // A vouch is the word and a positive account id of at most twenty digits, as it is written.
  lemma VouchIs(token: string, id: nat)
    ensures VouchedId(token) == Some(id) <==>
              |token| > 6 && Lower(token[..6]) == "vouch:" && id > 0 && token[6..] == Digits(id) && |Digits(id)| < 21
  {
    if 6 < |token| && AllDigits(token[6..]) && token[6] != '0' {
      NumberIsPositive(token[6..]);
      DigitsOfNumber(token[6..]);
    }
    if id > 0 { NoLeadingZero(id); }
  }

  lemma {:induction false} DigitsOfNumber(d: string)
    requires AllDigits(d) && d != "" && d[0] != '0'
    ensures Digits(NumberOf(d)) == d
  {
    var last := d[|d| - 1];
    if |d| == 1 {
      assert NumberOf(d[..0]) == 0;
    } else {
      var front := d[..|d| - 1];
      NumberIsPositive(front);
      DigitsOfNumber(front);
      assert NumberOf(d) / 10 == NumberOf(front) && NumberOf(d) % 10 == DigitValue(last);
      assert d == front + [last];
    }
  }

  // What stands before the handle: nothing, for the least level, or one of the three levels.
  ghost predicate FrontSays(front: seq<string>, written: string, level: nat, explicit: bool) {
    || (front == [] && !AllDigits(written) && level == 1 && !explicit)
    || (explicit && 1 <= level <= 3 && exists d :: front == [d] && AllDigits(d) && NumberOf(d) == level)
  }

  // What stands after it: nothing, or one vouch.
  ghost predicate BackSays(back: seq<string>, pin: Option<nat>) {
    || (back == [] && pin == None)
    || (exists token, id :: back == [token] && VouchedId(token) == Some(id) && pin == Some(id))
  }

  // A line grants a handle a level, pinned or not, exactly when its words say so and nothing else.
  lemma GrantedExactly(line: string, handle: string, level: nat, pin: Option<nat>, explicit: bool)
    ensures var entry := Strip(Uncommented(line));
            ReadLine(line) == Accepted(handle, level, pin, explicit, entry) <==>
              && '<' !in entry && '>' !in entry && IsLogin(handle)
              && exists front, written, back ::
                   && Words(entry) == front + [written] + back && NormaliseHandle(written) == handle
                   && FrontSays(front, written, level, explicit) && BackSays(back, pin)
  {
    var entry := Strip(Uncommented(line));
    hide Words, Strip, Uncommented, NormaliseHandle, VouchedId, IsLogin, FrontSays, BackSays;
    if ReadLine(line) == Accepted(handle, level, pin, explicit, entry) {
      var front, written, back := GrantParts(line, handle, level, pin, explicit);
    }
    if front, written, back :| Words(entry) == front + [written] + back && NormaliseHandle(written) == handle
                               && FrontSays(front, written, level, explicit) && BackSays(back, pin)
    {
      if '<' !in entry && '>' !in entry && IsLogin(handle) {
        PartsGrant(line, handle, level, pin, explicit, front, written, back);
      }
    }
  }

  lemma GrantParts(line: string, handle: string, level: nat, pin: Option<nat>, explicit: bool)
    returns (front: seq<string>, written: string, back: seq<string>)
    requires ReadLine(line) == Accepted(handle, level, pin, explicit, Strip(Uncommented(line)))
    ensures var entry := Strip(Uncommented(line));
            '<' !in entry && '>' !in entry && IsLogin(handle) && Words(entry) == front + [written] + back
    ensures NormaliseHandle(written) == handle && FrontSays(front, written, level, explicit) && BackSays(back, pin)
  {
    hide Words, Strip, Uncommented, NormaliseHandle, VouchedId, IsLogin;
    var parts := Words(Strip(Uncommented(line)));
    var n := if explicit then 1 else 0;
    front, written, back := parts[..n], parts[n], parts[n + 1..];
    assert parts == front + [written] + back;
    if explicit { assert front == [parts[0]]; }
    if back != [] { assert back == [back[0]]; }
  }

  lemma PartsGrant(line: string, handle: string, level: nat, pin: Option<nat>, explicit: bool,
                   front: seq<string>, written: string, back: seq<string>)
    requires var entry := Strip(Uncommented(line));
             '<' !in entry && '>' !in entry && IsLogin(handle) && Words(entry) == front + [written] + back
    requires NormaliseHandle(written) == handle && FrontSays(front, written, level, explicit) && BackSays(back, pin)
    ensures ReadLine(line) == Accepted(handle, level, pin, explicit, Strip(Uncommented(line)))
  {
    hide Words, Strip, Uncommented, NormaliseHandle, VouchedId, IsLogin;
    var parts := Words(Strip(Uncommented(line)));
    NoWords();
    NotEmptyLogin();
    assert parts[|front|] == written && parts[|front| + 1..] == back;
  }

  // A line whose handle is empty once stripped grants nothing, and is not refused either.
  lemma NamelessIsIgnored(line: string, level: nat, pin: Option<nat>, explicit: bool,
                          front: seq<string>, written: string, back: seq<string>)
    requires var entry := Strip(Uncommented(line));
             '<' !in entry && '>' !in entry && Words(entry) == front + [written] + back
    requires NormaliseHandle(written) == "" && FrontSays(front, written, level, explicit) && BackSays(back, pin)
    ensures ReadLine(line) == Nothing
  {
    hide Words, Strip, Uncommented, NormaliseHandle, VouchedId, IsLogin;
    var parts := Words(Strip(Uncommented(line)));
    NoWords();
    assert parts[|front|] == written && parts[|front| + 1..] == back;
  }

  lemma NotEmptyLogin()
    ensures !IsLogin("")
  {}

  // ---- what a line may grant ----

  // Whatever a line says, a grant is of a level the harness has, to a lower-case login, and
  // pinned to a real account or to none.
  lemma GrantsAreSound(line: string)
    ensures var r := ReadLine(line);
            r.Accepted? ==>
              && 1 <= r.level <= 3 && IsLogin(r.handle) && Lower(r.handle) == r.handle
              && (r.pin.Some? ==> r.pin.value > 0)
              && (!r.explicit ==> r.level == 1)
  {
    var entry := Strip(Uncommented(line));
    var parts := Words(entry);
    if parts != [] && ReadLine(line).Accepted? {
      var explicit := AllDigits(parts[0]);
      var handle, rest := if explicit then parts[1] else parts[0], if explicit then parts[2..] else parts[1..];
      LowerOnce(StripLeft(Strip(handle), IsAt));
      if |rest| == 1 { VouchedIsPositive(rest[0]); }
    }
  }

  lemma LowerOnce(s: string)
    ensures Lower(Lower(s)) == Lower(s)
  {}

  lemma {:induction false} NumberIsPositive(s: string)
    requires AllDigits(s) && s != "" && s[0] != '0'
    ensures NumberOf(s) > 0
  {
    if |s| > 1 { NumberIsPositive(s[..|s| - 1]); }
  }

  lemma VouchedIsPositive(token: string)
    ensures VouchedId(token).Some? ==> VouchedId(token).value > 0
  {
    if VouchedId(token).Some? { NumberIsPositive(token[6..]); }
  }

  // ---- the line a grant is written as ----

  lemma {:induction false} WordEnds(word: string, rest: string, from: nat)
    requires from <= |word| && All(word, IsWordChar) && (rest == "" || IsSpace(rest[0]))
    ensures WordEnd(word + rest, from) == |word|
    decreases |word| - from
  {
    if from < |word| { WordEnds(word, rest, from + 1); }
  }

  lemma WordsCons(word: string, rest: string)
    requires word != "" && All(word, IsWordChar) && (rest == "" || IsSpace(rest[0]))
    ensures Words(word + rest) == [word] + Words(rest)
  {
    WordEnds(word, rest, 1);
    assert (word + rest)[..|word|] == word && (word + rest)[|word|..] == rest;
  }

  lemma NoWords()
    ensures Words("") == []
  {}

  lemma SpaceFirst(s: string)
    ensures Words(" " + s) == Words(s)
  {
    assert (" " + s)[1..] == s;
  }

  lemma ThreeWords(a: string, b: string, c: string)
    requires a != "" && b != "" && c != ""
    requires All(a, IsWordChar) && All(b, IsWordChar) && All(c, IsWordChar)
    ensures Words(a + " " + b + " " + c) == [a, b, c]
  {
    assert IsSpace(' ');
    hide Words, WordEnd, IsSpace, IsWordChar, All;
    var last, two := " " + c, " " + (b + (" " + c));
    WordsCons(c, "");
    NoWords();
    assert c + "" == c;
    SpaceFirst(c);
    WordsCons(b, last);
    SpaceFirst(b + last);
    WordsCons(a, two);
    Associate(a + " " + b, " ", c);
    Associate(a + " ", b, last);
    Associate(a, " ", b + last);
    assert [a] + ([b] + ([c] + [])) == [a, b, c];
  }

  // A login, as it stands in the file.
  ghost predicate IsHandle(h: string) {
    IsLogin(h) && Lower(h) == h
  }

  lemma HandleIsItself(h: string)
    requires IsHandle(h)
    ensures NormaliseHandle(h) == h && All(h, IsWordChar)
  {
    StripOfStripped(h);
  }

  lemma {:induction false} NoLeadingZero(n: nat)
    requires n > 0
    ensures Digits(n)[0] != '0'
    decreases n
  {
    if n >= 10 { NoLeadingZero(n / 10); }
  }

  lemma VouchReadsBack(id: nat)
    requires id > 0 && |Digits(id)| <= 20
    ensures VouchedId("vouch:" + Digits(id)) == Some(id)
  {
    NoLeadingZero(id);
    var token := "vouch:" + Digits(id);
    assert token[..6] == "vouch:" && token[6..] == Digits(id);
    assert Lower("vouch:") == "vouch:";
  }

  // A character of a word that neither ends it, comments it out nor makes it a placeholder.
  predicate IsPlain(c: char) {
    !IsSpace(c) && c != '#' && c != '<' && c != '>'
  }

  lemma PlainLine(a: string, b: string, c: string)
    requires a != "" && c != "" && All(a, IsPlain) && All(b, IsPlain) && All(c, IsPlain)
    ensures var line := a + " " + b + " " + c;
            Uncommented(line) == line && Strip(line) == line && '<' !in line && '>' !in line
  {
    var line := a + " " + b + " " + c;
    forall k | 0 <= k < |line| ensures line[k] != '#' && line[k] != '<' && line[k] != '>' {
      if k < |a| { assert line[k] == a[k]; }
      else if |a| < k <= |a| + |b| { assert line[k] == b[k - |a| - 1]; }
      else if k > |a| + |b| + 1 { assert line[k] == c[k - |a| - |b| - 2]; }
    }
    NoComment(line);
    assert IsPlain(a[0]) && IsPlain(c[|c| - 1]) && line[0] == a[0] && line[|line| - 1] == c[|c| - 1];
    StripOfStripped(line);
  }

  lemma DigitsArePlain(n: nat)
    ensures All(Digits(n), IsPlain) && All("vouch:" + Digits(n), IsPlain)
  {}

  // `<level> <handle> vouch:<id>` is read as the grant it names.
  lemma GrantLineReadsBack(level: nat, handle: string, id: nat)
    requires 1 <= level <= 3 && IsHandle(handle) && id > 0 && |Digits(id)| <= 20
    ensures var line := Digits(level) + " " + handle + " " + ("vouch:" + Digits(id));
            ReadLine(line) == Accepted(handle, level, Some(id), true, line)
  {
    HandleIsItself(handle);
    VouchReadsBack(id);
    DigitsArePlain(level);
    DigitsArePlain(id);
    assert All(handle, IsPlain);
    GrantWords(level, handle, "vouch:" + Digits(id));
  }

  lemma GrantWords(level: nat, handle: string, token: string)
    requires 1 <= level <= MAX_LEVEL && handle != "" && All(Digits(level), IsPlain) && All(handle, IsPlain)
               && All(token, IsPlain)
    requires VouchedId(token).Some? && NormaliseHandle(handle) == handle && IsLogin(handle)
    ensures var line := Digits(level) + " " + handle + " " + token;
            ReadLine(line) == Accepted(handle, level, VouchedId(token), true, line)
  {
    hide ReadLine, NormaliseHandle;
    var line := Digits(level) + " " + handle + " " + token;
    ThreeWords(Digits(level), handle, token);
    PlainLine(Digits(level), handle, token);
    ReadsAsWords(line, Digits(level), handle, token);
  }

  lemma ReadsAsWords(line: string, level: string, handle: string, token: string)
    requires Uncommented(line) == line && Strip(line) == line && line != "" && '<' !in line && '>' !in line
    requires Words(line) == [level, handle, token] && AllDigits(level) && 1 <= NumberOf(level) <= MAX_LEVEL
    requires VouchedId(token).Some? && NormaliseHandle(handle) == handle && IsLogin(handle)
    ensures ReadLine(line) == Accepted(handle, NumberOf(level), VouchedId(token), true, line)
  {
    hide Strip, Uncommented, Words, NormaliseHandle, VouchedId;
    assert [level, handle, token][2..] == [token];
  }
}
