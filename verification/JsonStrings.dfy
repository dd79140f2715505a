// A reader of JSON strings, section 7 of RFC 8259, for what the front matter's writer makes of a
// text: the text comes back whole, and nothing in it ends the string early.
module JsonStrings {
  import opened Prelude
  import opened Strings
  import opened FrontMatter

  // ---- the reader ----

  function HexValue(c: char): Option<nat> {
    if '0' <= c <= '9' then Some(c as nat - '0' as nat)
    else if 'a' <= c <= 'f' then Some(c as nat - 'a' as nat + 10)
    else None
  }

  // What a backslash and the character after it stand for.
  function ShortEscape(c: char): Option<char> {
    match c
    case '"' => Some('"')
    case '\\' => Some('\\')
    case 'n' => Some('\n')
    case 'r' => Some('\r')
    case 't' => Some('\t')
    case 'b' => Some('\U{08}')
    case 'f' => Some('\U{0C}')
    case _ => None
  }

  // The character of four hexadecimal digits, the first two of them zeros.
  function CodeUnit(digits: string): Option<char> {
    if |digits| == 4 && digits[0] == digits[1] == '0' && HexValue(digits[2]).Some? && HexValue(digits[3]).Some?
    then Some((16 * HexValue(digits[2]).value + HexValue(digits[3]).value) as char)
    else None
  }

  // The text up to the first quotation mark no backslash stands before, and what follows the mark;
  // None when it is no JSON string.
  function Read(s: string): Option<(string, string)> {
    if s == "" then None
    else if s[0] == '"' then Some(("", s[1..]))
    else if s[0] < ' ' then None
    else if s[0] != '\\' then Then(s[0], Read(s[1..]))
    else if |s| > 1 && ShortEscape(s[1]).Some? then Then(ShortEscape(s[1]).value, Read(s[2..]))
    else if |s| > 5 && s[1] == 'u' && CodeUnit(s[2..6]).Some? then Then(CodeUnit(s[2..6]).value, Read(s[6..]))
    else None
  }

  function Then(c: char, rest: Option<(string, string)>): Option<(string, string)> {
    match rest
    case Some((text, after)) => Some(([c] + text, after))
    case None => None
  }

  function ReadString(s: string): Option<(string, string)> {
    if s != "" && s[0] == '"' then Read(s[1..]) else None
  }

  // ---- the round trip ----

  lemma OneEscapeReads(c: char, rest: string)
    ensures Read(Escape(c) + rest) == Then(c, Read(rest))
  {
    hide Then;
    var e := Escape(c);
    var s := e + rest;
    if |e| == 1 {
      assert s[1..] == rest;
    } else if |e| == 2 {
      assert s[2..] == rest;
    } else {
      ControlReads(c);
      assert s[2..6] == e[2..6] && s[6..] == rest;
    }
  }

  lemma ControlReads(c: char)
    requires |Escape(c)| > 2
    ensures |Escape(c)| == 6 && Escape(c)[0] == '\\' && Escape(c)[1] == 'u' && CodeUnit(Escape(c)[2..6]) == Some(c)
  {
    var n := c as nat;
    assert n < 32 && n / 16 < 2;
    var e := Escape(c);
    assert e == "\\u00" + [HexDigit(n / 16), HexDigit(n % 16)];
    var digits := e[2..6];
    assert digits == ['0', '0', HexDigit(n / 16), HexDigit(n % 16)];
    HexReadsBack(n / 16);
    HexReadsBack(n % 16);
  }

  lemma HexReadsBack(n: nat)
    requires n < 16
    ensures HexValue(HexDigit(n)) == Some(n)
  {}

  lemma {:induction false} EscapedReads(text: string, after: string)
    ensures Read(EscapeAll(text) + "\"" + after) == Some((text, after))
  {
    hide Escape;
    if text == "" {
      assert "" + "\"" + after == "\"" + after && ("\"" + after)[1..] == after;
    } else {
      var rest := EscapeAll(text[1..]) + "\"" + after;
      EscapedReads(text[1..], after);
      OneEscapeReads(text[0], rest);
      assert EscapeAll(text) + "\"" + after == Escape(text[0]) + rest;
      assert text == [text[0]] + text[1..];
    }
  }

  // Whatever the text, and whatever stands after it, the string is read as the text.
  lemma JsonReadsBack(text: string, after: string)
    ensures ReadString(JsonText(text) + after) == Some((text, after))
  {
    hide EscapeAll, Read;
    EscapedReads(text, after);
    assert (JsonText(text) + after)[1..] == EscapeAll(text) + "\"" + after;
  }
}
