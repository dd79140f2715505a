// Two proposals that pass every check and do not read back: what a line separator in a title does.
module FrontMatterTraps {
  import opened Prelude
  import opened Strings
  import opened FrontMatter
  import opened FrontMatterExact

  // ---- a separator misleads ----

  const HEAD := "title: \"x"
  const POSER := "depends_on: 7#\""

  // A title that is one line to a person and two to the reader.
  const TITLE := "x" + "\U{2028}" + "depends_on: 7#"

  function Misleading(): Front {
    Front(1, None, TITLE, "fix", 1, "low", ["a"], [], 1, "green", [])
  }

  lemma PoserShape()
    ensures ShapeOf(POSER) == Line(None, false, Inline([7]))
  {
    KeyShapeOf(POSER);
    assert RightStripped(POSER) == POSER;
    PoserOpening();
  }

  lemma PoserOpening()
    ensures OpeningOf(POSER) == Inline([7])
  {
    assert StartsWith(POSER, DEPENDS) && POSER[|DEPENDS|..] == " 7#\"";
    PoserValue();
    hide Strip, Uncommented, Numbers;
  }

  lemma PoserValue()
    ensures Strip(Uncommented(" 7#\"")) == "7" && Numbers(["7"]) == [7]
  {
    assert Uncommented(" 7#\"") == " 7" by {
      assert " 7#\""[1..] == "7#\"" && "7#\""[1..] == "#\"";
    }
    StripPadding(" ", "7", "");
    assert " " + "7" + "" == " 7";
    StripOfStripped("7");
    assert ["7"][1..] == [] && "7"[..0] == "";
  }

  lemma {:induction false} PlainIsKept(s: string)
    requires forall k :: 0 <= k < |s| ==> ' ' <= s[k] && s[k] != '"' && s[k] != '\\'
    ensures EscapeAll(s) == s
  {
    if s != "" {
      PlainIsKept(s[1..]);
      assert s == [s[0]] + s[1..];
    }
  }

  lemma TitleLine()
    ensures "title: " + JsonText(TITLE) == HEAD + ['\U{2028}'] + POSER
  {
    hide EscapeAll;
    PlainIsKept(TITLE);
    assert "title: " + ("\"" + TITLE + "\"") == HEAD + ['\U{2028}'] + POSER;
  }

  function Front2(f: Front): seq<string> {
    ["issue: " + IntText(f.issue), "upstream_issue: " + OptionalInt(f.upstreamIssue)]
  }

  lemma SplitsTheTitle(front: seq<string>, title: string, more: seq<string>)
    requires AllOneLine(front) && title == HEAD + ['\U{2028}'] + POSER
    ensures SplitLines(Print(front + ([title] + more))) == front + [HEAD] + ([POSER] + SplitLines(Print(more)))
  {
    hide SplitLines, Print;
    PrintConcat(front, [title] + more);
    PrintEnds(front);
    LinesConcat(Print(front), Print([title] + more));
    PrintedLines(front);
    PrintCons(title, more, "");
    assert Print([title] + more) + "" == Print([title] + more) && Print(more) + "" == Print(more);
    HeadAndPoser();
    BreakCons(HEAD, '\U{2028}', POSER + "\n" + Print(more));
    assert HEAD + ['\U{2028}'] + (POSER + "\n" + Print(more)) == title + "\n" + Print(more);
    SplitLinesCons(POSER, Print(more));
    Associate(front, [HEAD], [POSER] + SplitLines(Print(more)));
  }

  lemma HeadAndPoser()
    ensures OneLine(HEAD) && OneLine(POSER) && IsKey(HEAD) && HEAD[0] != 'd'
  {}

  lemma ReadsThePoser(front: seq<string>, rest: seq<string>)
    requires AllPast(front)
    ensures var lines := front + [HEAD] + ([POSER] + rest);
            !NonePoses(lines) && ReadShapes(Shapes(lines) + [END], false) == [7]
  {
    hide ShapeOf, IsPast, IsKey, HEAD, POSER;
    var lines := front + [HEAD] + ([POSER] + rest);
    HeadAndPoser();
    KeyShapeOf(HEAD);
    PoserShape();
    PastShapes(front);
    EachCons(ShapeOf, HEAD, []);
    assert [HEAD] + [] == [HEAD];
    EachCons(ShapeOf, POSER, rest);
    EachConcat(ShapeOf, front, [HEAD]);
    EachConcat(ShapeOf, front + [HEAD], [POSER] + rest);
    var past, later := Shapes(front + [HEAD]), Shapes(rest) + [END];
    ReadsPast(past, [ShapeOf(POSER)] + later);
    assert Shapes(lines) + [END] == past + ([ShapeOf(POSER)] + later);
    NonePosesByShape(lines);
    assert Shapes(lines)[|past|] == ShapeOf(POSER);
  }

  function AfterTitle(f: Front): seq<string> {
    ["kind: " + f.kind, "slices: " + IntText(f.slices), "risk: " + f.risk]
    + ListLines("touched_paths", Mapped(JsonText, f.touchedPaths))
  }

  lemma TitleAmongLines(f: Front)
    ensures LinesBefore(f) == Front2(f) + (["title: " + JsonText(f.title)] + AfterTitle(f))
  {
    hide IntText, OptionalInt, JsonText, ListLines;
  }

  lemma FrontIsPast(f: Front)
    ensures AllPast(Front2(f))
  {
    hide IsPast, IntText, OptionalInt;
    NumbersArePast(f);
  }

  // What both traps are checked against.
  const SOME_PLACE := Outside({"a"}, {1}, 1)

  lemma MisleadingIsAccepted()
    ensures Accepted(Misleading(), SOME_PLACE) && Misleading().dependsOn == [] && Misleading().title == TITLE
  {
    StripOfStripped(TITLE);
    StripOfStripped("a");
  }

  // It does go wrong: the proposal passes every check, and the dispatcher waits on an issue it
  // never named.
  lemma SeparatorMisleads(rest: string)
    ensures Accepted(Misleading(), SOME_PLACE) && Misleading().dependsOn == []
    ensures DependsOn(Render(Misleading()) + rest) == [7]
  {
    MisleadingIsAccepted();
    hide *;
    var f := Misleading();
    TitleLine();
    TitleAmongLines(f);
    FrontIsPast(f);
    PastAreOneLine(Front2(f));
    SplitsTheTitle(Front2(f), "title: " + JsonText(TITLE), AfterTitle(f));
    ReadsThePoser(Front2(f), SplitLines(Print(AfterTitle(f))));
    WhatIsMisread(f, Front2(f) + [HEAD] + ([POSER] + SplitLines(Print(AfterTitle(f)))), rest);
  }

  lemma WhatIsMisread(f: Front, lines: seq<string>, rest: string)
    requires f.dependsOn == [] && SplitLines(Print(LinesBefore(f))) == lines && !NonePoses(lines)
    ensures DependsOn(Render(f) + rest) == ReadShapes(Shapes(lines) + [END], false)
  {
    hide SplitLines, Print, LinesBefore, NonePoses, Shapes, ReadShapes, Render, DependsOn;
    WhatIsRead(f, rest);
  }

  // ---- a separator cuts ----

  const CUT_TITLE := "x" + "\U{2028}" + "---" + "\U{2028}" + "y"
  const CUT_END := "y\""

  function Cutting(): Front {
    Front(1, None, CUT_TITLE, "fix", 1, "low", ["a"], [], 1, "green", [])
  }

  lemma CuttingIsAccepted()
    ensures Accepted(Cutting(), SOME_PLACE) && Cutting().title == CUT_TITLE
  {
    StripOfStripped(CUT_TITLE);
    StripOfStripped("a");
  }

  lemma CutTitleLine()
    ensures "title: " + JsonText(CUT_TITLE) == HEAD + ['\U{2028}'] + ("---" + ['\U{2028}'] + CUT_END)
  {
    hide EscapeAll;
    PlainIsKept(CUT_TITLE);
    assert "title: " + ("\"" + CUT_TITLE + "\"") == HEAD + ['\U{2028}'] + ("---" + ['\U{2028}'] + CUT_END);
  }

  lemma KeptBreakCons(line: string, c: char, rest: string)
    requires OneLine(line) && IsBreak(c) && c != '\r'
    ensures SplitKeep(line + [c] + rest) == [line + [c]] + SplitKeep(rest)
  {
    var s := line + [c] + rest;
    assert s[|line|] == c;
    forall k | 0 <= k < |line| ensures !IsBreak(s[k]) { assert s[k] == line[k]; }
    assert LineEnd(s, 0) == |line|;
    assert s[..|line| + 1] == line + [c] && s[|line| + 1..] == rest;
  }

  lemma CutsTheTitle(front: seq<string>, title: string, more: seq<string>)
    requires title == HEAD + ['\U{2028}'] + ("---" + ['\U{2028}'] + CUT_END)
    ensures !NoRule(SplitKeep(Print(front + ([title] + more))))
  {
    hide SplitKeep, Print, NoRule;
    PrintConcat(front, [title] + more);
    PrintEnds(front);
    KeptConcat(Print(front), Print([title] + more));
    PrintCons(title, more, "");
    assert Print([title] + more) + "" == Print([title] + more) && Print(more) + "" == Print(more);
    var rest := CUT_END + "\n" + Print(more);
    HeadAndPoser();
    DashesAreOneLine();
    KeptBreakCons(HEAD, '\U{2028}', "---" + ['\U{2028}'] + rest);
    KeptBreakCons("---", '\U{2028}', rest);
    assert HEAD + ['\U{2028}'] + ("---" + ['\U{2028}'] + rest) == title + "\n" + Print(more);
    HoldsRule(SplitKeep(Print(front)), HEAD + ['\U{2028}'], "---" + ['\U{2028}'], SplitKeep(rest));
  }

  lemma HoldsRule(front: seq<string>, head: string, rule: string, rest: seq<string>)
    requires rule == "---" + ['\U{2028}']
    ensures !NoRule(front + ([head] + ([rule] + rest)))
  {
    StripPadding("", "---", ['\U{2028}']);
    assert "" + "---" + ['\U{2028}'] == rule;
    var lines := front + ([head] + ([rule] + rest));
    assert lines[|front| + 1] == rule;
  }

  lemma InnerAmong(f: Front)
    ensures InnerLines(f)
              == Front2(f) + (["title: " + JsonText(f.title)]
                   + (AfterTitle(f) + DependsLines(f.dependsOn) + LinesAfter(f)))
  {
    hide LinesBefore, DependsLines, LinesAfter, AfterTitle, Front2, JsonText;
    TitleAmongLines(f);
  }

  // Nor does every body survive: this proposal passes every check, and stripping it leaves more
  // than its body, whatever the body is.
  lemma SeparatorCuts(body: string)
    ensures Accepted(Cutting(), SOME_PLACE)
    ensures StripFrontMatter(Render(Cutting()) + body) != Unblanked(body)
  {
    CuttingIsAccepted();
    hide *;
    var f := Cutting();
    CutTitleLine();
    InnerAmong(f);
    CutsTheTitle(Front2(f), "title: " + JsonText(CUT_TITLE), AfterTitle(f) + DependsLines(f.dependsOn) + LinesAfter(f));
    BodySurvivesExactly(f, body);
    KeptLinesAre(f);
  }

  lemma KeptLinesAre(f: Front)
    ensures KeptLines(f) == SplitKeep(Print(InnerLines(f)))
  {}
}
